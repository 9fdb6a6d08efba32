/** What becomes of the configured validation levels: the client's is carried to the peer and kept, the server's is
    dropped (wgit.go:404-405), and when that shows. */
module ServerLevels {
  import opened Bytes
  import opened Tables
  import opened Runs
  import opened AnyRuns
  import opened ServerConfig
  import opened Selection

  /** The peer accepts exactly the server packets that a peer with this level would accept. */
  ghost predicate Honours(p: Peer, level: int) {
    forall src :: ServerAccepts(p, src) <==> ServerAccepts(p.(serverLevel := level), src)
  }

  /** A packet that the level would let pass, and the peer refuses: from the server's host, but another port. */
  lemma RefusedDespiteLevel(p: Peer, level: int) returns (src: Addr)
    requires Replied(p) && p.serverLevel == LEVEL_DEFAULT && level != LEVEL_DEFAULT && level != LEVEL_IP_AND_PORT
    ensures src.ip == p.serverDest.ip && !ServerAccepts(p, src) && ServerAccepts(p.(serverLevel := level), src)
  {
    src := p.serverDest.(port := p.serverDest.port + 1);
  }

  lemma HonoursExactly(p: Peer, level: int)
    requires Replied(p) && p.serverLevel == LEVEL_DEFAULT
    ensures Honours(p, level) <==> level == LEVEL_DEFAULT || level == LEVEL_IP_AND_PORT
  {
    if level != LEVEL_DEFAULT && level != LEVEL_IP_AND_PORT {
      var src := RefusedDespiteLevel(p, level);
    }
  }

  /** In every run of the program, a replied peer honours a server level exactly if it is 0 or 3: one that is configured
      as 1 or 2 is never honoured by anyone. */
  lemma RunHonours(es: seq<Event>, id: PeerId, level: int)
    requires id < |Run(INITIAL, es).table.heap| && Replied(Run(INITIAL, es).table.heap[id])
    ensures Honours(Run(INITIAL, es).table.heap[id], level) <==> level == LEVEL_DEFAULT || level == LEVEL_IP_AND_PORT
    ensures level == LEVEL_NONE || level == LEVEL_IP ==> !Honours(Run(INITIAL, es).table.heap[id], level)
  {
    FromTheStart(es);
    HonoursExactly(Run(INITIAL, es).table.heap[id], level);
  }

  lemma Extraction(s: State, e: Event)
    requires WellFormed(s) && e.ExtractPeer?
    ensures |Next(s, e).table.heap| == |s.table.heap| + 1
    ensures Next(s, e).table.heap[|s.table.heap|] == NewPeer(e.rule, e.src, e.sender, e.now)
  {
  }

  /** `level` is the entry's own where it has one, and its server's otherwise. */
  predicate Configured(own: int, server: int, level: int) {
    (own != 0 ==> level == own) && (own == 0 ==> level == server)
  }

  /** From configuration to validation. Entry `j` of server `i` is selected for an initiation, and its peer lives on
      in any run without restart, with any levels, allocations and answers. Then the peer keeps the client's key and the
      public half of the server's, validates its client by the entry's client level, or its server's where it has none,
      and, once replied, its server by the server level found in the same way exactly if that is 0 or 3. */
  lemma ConfiguredLevels(env: Env, cs: seq<Config>, decrypt: Decrypt, i: nat, j: nat, p: Entry,
                         s: State, src: Addr, sender: Index, deobfuscated: bool, now: Time, es: seq<Event>, level: int)
    requires AllAcceptable(env, cs) && i < |cs| && Selects(env, cs, decrypt, i, j, p)
    requires Configured(cs[i].peers[j].serverLevel, cs[i].serverLevel, level)
    requires WellFormed(s) && LevelsOk(s) && NoRestart(es)
    ensures var id := |s.table.heap|;
            var r := Run(Next(s, ExtractPeer(src, sender, ToRule(p), deobfuscated, now)), es);
            var key := KeyOf(env, cs[i]).value;
            && id < |r.table.heap|
            && var peer := r.table.heap[id];
            && decrypt(key) == Some(peer.clientKey) && peer.serverKey == env.publicKey(key)
            && Configured(cs[i].peers[j].clientLevel, cs[i].clientLevel, peer.clientLevel)
            && (Replied(peer) ==> (Honours(peer, level) <==> level == LEVEL_DEFAULT || level == LEVEL_IP_AND_PORT))
  {
    var e, id := ExtractPeer(src, sender, ToRule(p), deobfuscated, now), |s.table.heap|;
    Extraction(s, e);
    StepWellFormed(s, e);
    StepLevels(s, e);
    RunPins(Next(s, e), es, id);
    RunLevels(Next(s, e), es);
    var peer := Run(Next(s, e), es).table.heap[id];
    hide Run, Next, Honours;
    if Replied(peer) {
      HonoursExactly(peer, level);
    }
  }
}

/** mwgp-client and mwgp-server in a row (client.go, server.go): translate, obfuscate, deobfuscate, translate. */
module TwoHop {
  import opened Bytes
  import opened Packets
  import opened Obfs
  import opened Tables
  import opened Runs
  import opened AnyRuns
  import opened Sessions
  import Handlers

  // ---------------------------------------------------------------- the wire between the two

  /** One datagram between the processes: their common keystream, the sender's random draws, the buffer it was sent
      from and the buffer it was received into, whose bytes beyond the datagram are left over from earlier use. */
  datatype Link = Link(enabled: bool, hash: Hash, key: seq<byte>, r: nat, fill: Random, sent: Buffer, received: Buffer)

  /** Sending `m` over the link, obfuscated or not, lets the other side see `m'`, marked as deobfuscated or not. */
  ghost predicate Relays(l: Link, m: seq<byte>, obfuscate: bool, m': seq<byte>, marked: bool) {
    && ValidBuffer(l.sent) && ValidBuffer(l.received) && Message(l.sent) == m
    && (l.enabled && obfuscate ==> Fits(l.sent.data, l.sent.length, l.r))
    && if l.enabled then
         var wire := if obfuscate then Obfuscated(l.hash, l.key, l.sent, l.r, l.fill) else l.sent;
         var (b, flag) := Deobfuscated(l.hash, l.key, l.received);
         Message(l.received) == Message(wire) && m' == Message(b) && marked == flag
       else m' == Message(l.received) == m && !marked
  }

  /** The messages a link carries faithfully. */
  predicate Carriable(b: Buffer, obfuscate: bool)
    requires ValidBuffer(b)
  {
    if obfuscate then Restorable(b) && 1 <= TypeOf(Message(b)) <= 4
    else b.length < MIN_MESSAGE_SIZE || LooksPlain(b.data)
  }

  lemma SameHead(hash: Hash, key: seq<byte>, nonce: seq<byte>, d: seq<byte>, d': seq<byte>, part: nat, n: nat)
    requires n <= |d| && n <= |d'| && d[..n] == d'[..n]
    ensures Masked(hash, key, nonce, d, part)[..n] == Masked(hash, key, nonce, d', part)[..n]
  {
    assert forall i :: 0 <= i < n ==> d[i] == d[..n][i] && d'[i] == d'[..n][i];
  }

  lemma SameCleared(d: seq<byte>, d': seq<byte>, sh: Shape, flagged: bool, n: nat)
    requires n <= |d| && n <= |d'| && d[..n] == d'[..n]
    ensures Cleared(d, sh, flagged)[..n] == Cleared(d', sh, flagged)[..n]
  {
    assert forall i :: 0 <= i < n ==> d[i] == d[..n][i] && d'[i] == d'[..n][i];
  }

  lemma SamePrefix(d: seq<byte>, d': seq<byte>, n: nat)
    requires n <= |d| && n <= |d'| && d[..n] == d'[..n]
    ensures forall i, j :: 0 <= i <= j <= n ==> d[i..j] == d'[i..j]
    ensures forall i :: 0 <= i < n ==> d[i] == d'[i]
  {
    forall i, j | 0 <= i <= j <= n
      ensures d[i..j] == d'[i..j]
    {
      assert d[i..j] == d[..n][i..j] && d'[i..j] == d'[..n][i..j];
    }
    assert forall i :: 0 <= i < n ==> d[i] == d[..n][i] && d'[i] == d'[..n][i];
  }

  /** Same nonce, same shape: the two decoded buffers agree as far as the datagram went. */
  lemma DecodeAlike(hash: Hash, key: seq<byte>, b: Buffer, b': Buffer)
    requires ValidBuffer(b) && ValidBuffer(b') && b.length == b'.length && Message(b) == Message(b')
    requires b.length >= MIN_MESSAGE_SIZE && !LooksPlain(b.data) && !LooksPlain(b'.data)
    ensures var (o, marked) := Deobfuscated(hash, key, b);
            var (o', marked') := Deobfuscated(hash, key, b');
            marked == marked' && o.length == o'.length && o.data[..b.length] == o'.data[..b.length]
  {
    var n, d, d' := b.length, b.data, b'.data;
    hide Deobfuscated, Masked, Cleared, ShapeOf, LooksPlain;
    SamePrefix(d, d', n);
    var nonce := d[n - NONCE_LENGTH..n];
    var head, head' := Masked(hash, key, nonce, d, XOR_KEY_LENGTH), Masked(hash, key, nonce, d', XOR_KEY_LENGTH);
    SameHead(hash, key, nonce, d, d', XOR_KEY_LENGTH, n);
    SamePrefix(head, head', n);
    var flagged := head[0] as int != MESSAGE_COOKIE_REPLY && head[1] == 1;
    var sh := ShapeOf(head[0] as int, flagged, n);
    DeobfuscatedAs(hash, key, b, head, flagged, sh);
    DeobfuscatedAs(hash, key, b', head', flagged, sh);
    if sh.Some? {
      SameHead(hash, key, nonce, d, d', sh.value.part, n);
      SameCleared(Masked(hash, key, nonce, d, sh.value.part), Masked(hash, key, nonce, d', sh.value.part), sh.value,
                  flagged, n);
    }
  }

  /** The decoder's result does not depend on what the buffer holds beyond the datagram, unless the result is
      longer than the datagram. */
  lemma DecodeSeesMessage(hash: Hash, key: seq<byte>, b: Buffer, b': Buffer)
    requires ValidBuffer(b) && ValidBuffer(b') && Message(b) == Message(b')
    requires Deobfuscated(hash, key, b).0.length <= b.length
    ensures Message(Deobfuscated(hash, key, b').0) == Message(Deobfuscated(hash, key, b).0)
    ensures Deobfuscated(hash, key, b').1 == Deobfuscated(hash, key, b).1
  {
    assert b'.length == |Message(b')| == b.length;
    PlainPasses(hash, key, b);
    PlainPasses(hash, key, b');
    SamePrefix(b.data, b'.data, b.length);
    hide Deobfuscated;
    if b.length >= MIN_MESSAGE_SIZE && !LooksPlain(b.data) {
      DecodeAlike(hash, key, b, b');
      SamePrefix(Deobfuscated(hash, key, b).0.data, Deobfuscated(hash, key, b').0.data, b.length);
    }
  }

  /** What goes in comes out, marked exactly when it was obfuscated. */
  lemma LinkTransparent(l: Link, m: seq<byte>, obfuscate: bool, m': seq<byte>, marked: bool)
    requires Relays(l, m, obfuscate, m', marked) && Carriable(l.sent, obfuscate)
    ensures m' == m && marked == (l.enabled && obfuscate)
  {
    if l.enabled && obfuscate {
      var o := Obfuscated(l.hash, l.key, l.sent, l.r, l.fill);
      RoundTrip(l.hash, l.key, l.sent, l.r, l.fill);
      ObfuscatedGrows(l.hash, l.key, l.sent, l.r, l.fill);
      hide Obfuscated, Deobfuscated;
      DecodeSeesMessage(l.hash, l.key, o, l.received);
    } else if l.enabled {
      SamePrefix(l.sent.data, l.received.data, |m|);
      PlainPasses(l.hash, l.key, l.received);
    }
  }

  lemma ObfuscatedGrows(hash: Hash, key: seq<byte>, b: Buffer, r: nat, fill: Random)
    requires ValidBuffer(b) && Fits(b.data, b.length, r) && Restorable(b)
    ensures Deobfuscated(hash, key, Obfuscated(hash, key, b, r, fill)).0.length == b.length
    ensures b.length <= Obfuscated(hash, key, b, r, fill).length
  {
    RoundTrip(hash, key, b, r, fill);
    hide Deobfuscated, Prepared, Masked;
    var e := Deobfuscated(hash, key, Obfuscated(hash, key, b, r, fill)).0;
    assert |Message(e)| == e.length;
  }

  // ---------------------------------------------------------------- two sessions as one

  /** A WireGuard transport message, with its three reserved bytes zero. */
  predicate TransportMessage(m: seq<byte>) {
    |m| >= TRANSPORT_HEADER_SIZE && m[0] as int == MESSAGE_TRANSPORT && m[1] == 0 && m[2] == 0 && m[3] == 0
  }

  /** The mwgp-client session `x` and the mwgp-server session `y` belong together: each side calls the other what
      the other calls itself on the wire between them. */
  predicate Linked(x: Session, y: Session) {
    x.serverOrigin == y.serverProxy && x.clientProxy == y.clientOrigin
  }

  /** The single translation between the two ends. */
  function Joined(x: Session, y: Session): Session {
    Session(x.clientOrigin, y.clientProxy, y.serverOrigin, x.serverProxy)
  }

  lemma TransportCarried(l: Link, m: seq<byte>, obfuscate: bool, m': seq<byte>, marked: bool)
    requires TransportMessage(m) && Relays(l, m, obfuscate, m', marked)
    ensures m' == m && marked == (l.enabled && obfuscate)
  {
    assert forall i :: 0 <= i < |m| ==> m[i] == l.sent.data[i];
    LinkTransparent(l, m, obfuscate, m', marked);
  }

  lemma ClientHop(s: State, x: Session, m: seq<byte>, src: Addr, now: Time)
    requires WellFormed(s) && Live(s.table, x) && TransportMessage(m) && Receiver(m) == Some(x.serverProxy)
    requires ClientAccepts(PeerOf(s.table, x), src)
    ensures var m' := Splice(m, 4, PutLE(x.serverOrigin));
            && Handlers.ClientData(s.table, m, src, now).1 == Handlers.Send(m', PeerOf(s.table, x).serverDest, false)
            && TransportMessage(m') && Receiver(m') == Some(x.serverOrigin)
  {
    LiveTranslates(s, x, src, now);
    Handlers.ClientDataAgrees(s, m, src, now);
  }

  lemma ServerHop(s: State, x: Session, m: seq<byte>, src: Addr, now: Time)
    requires WellFormed(s) && Live(s.table, x) && TransportMessage(m) && Receiver(m) == Some(x.clientProxy)
    requires ServerAccepts(PeerOf(s.table, x), src)
    ensures var m' := Splice(m, 4, PutLE(x.clientOrigin));
            var p := PeerOf(s.table, x);
            && Handlers.ServerData(s.table, m, src, now).1 == Handlers.Send(m', p.clientDest, p.obfuscate)
            && TransportMessage(m') && Receiver(m') == Some(x.clientOrigin)
  {
    LiveTranslates(s, x, src, now);
    Handlers.ServerDataAgrees(s, m, src, now);
  }

  /** One packet's way through both hops: received as `m`, handed over as `m1`, seen by the second hop as `m2`. */
  datatype Trip = Trip(link: Link, m: seq<byte>, m1: seq<byte>, m2: seq<byte>, obfuscate: bool, marked: bool,
                       src: Addr, src1: Addr, now: Time, now1: Time)

  /** The table forwards client packet `m` from `src` to `dest`, as `m'`. */
  predicate ForwardsUp(t: Table, m: seq<byte>, src: Addr, now: Time, m': seq<byte>, dest: Addr) {
    InHeap(t) && TypeOf(m) == MESSAGE_TRANSPORT
      && Handlers.ClientData(t, m, src, now).1 == Handlers.Send(m', dest, false)
  }

  predicate ForwardsDown(t: Table, m: seq<byte>, src: Addr, now: Time, m': seq<byte>, dest: Addr, obfuscate: bool) {
    InHeap(t) && TypeOf(m) == MESSAGE_TRANSPORT
      && Handlers.ServerData(t, m, src, now).1 == Handlers.Send(m', dest, obfuscate)
  }

  /** A client packet for the joined session, accepted by both hops, reaches the second. mwgp-client obfuscates
      everything it sends towards the server. */
  ghost predicate EntersUp(c: Table, s: Table, x: Session, y: Session, t: Trip)
    requires Live(c, x) && Live(s, y)
  {
    && TransportMessage(t.m) && Receiver(t.m) == Some(Joined(x, y).serverProxy)
    && ClientAccepts(PeerOf(c, x), t.src) && ClientAccepts(PeerOf(s, y), t.src1)
    && ForwardsUp(c, t.m, t.src, t.now, t.m1, PeerOf(c, x).serverDest) && Relays(t.link, t.m1, true, t.m2, t.marked)
  }

  /** It leaves for the server with one field changed. */
  predicate LeavesUp(s: Table, x: Session, y: Session, t: Trip)
    requires Live(s, y) && TransportMessage(t.m)
  {
    t.marked == t.link.enabled &&
    ForwardsUp(s, t.m2, t.src1, t.now1, Splice(t.m, 4, PutLE(Joined(x, y).serverOrigin)), PeerOf(s, y).serverDest)
  }

  ghost predicate EntersDown(c: Table, s: Table, x: Session, y: Session, t: Trip)
    requires Live(c, x) && Live(s, y)
  {
    && TransportMessage(t.m) && Receiver(t.m) == Some(Joined(x, y).clientProxy)
    && ServerAccepts(PeerOf(s, y), t.src) && ServerAccepts(PeerOf(c, x), t.src1)
    && ForwardsDown(s, t.m, t.src, t.now, t.m1, PeerOf(s, y).clientDest, t.obfuscate)
    && Relays(t.link, t.m1, t.obfuscate, t.m2, t.marked)
  }

  predicate LeavesDown(c: Table, s: Table, x: Session, y: Session, t: Trip)
    requires Live(c, x) && Live(s, y) && TransportMessage(t.m)
  {
    t.marked == (t.link.enabled && PeerOf(s, y).obfuscate) &&
    ForwardsDown(c, t.m2, t.src1, t.now1, Splice(t.m, 4, PutLE(Joined(x, y).clientOrigin)), PeerOf(c, x).clientDest,
                 PeerOf(c, x).obfuscate)
  }

  /** From the client: both hops together rewrite the receiver once, from the name the client was shown to the name
      the server chose, and touch nothing else. */
  lemma Upstream(c: State, s: State, x: Session, y: Session, t: Trip)
    requires WellFormed(c) && WellFormed(s) && Live(c.table, x) && Live(s.table, y) && Linked(x, y)
    requires EntersUp(c.table, s.table, x, y, t)
    ensures LeavesUp(s.table, x, y, t)
  {
    ClientHop(c, x, t.m, t.src, t.now);
    TransportCarried(t.link, t.m1, true, t.m2, t.marked);
    ClientHop(s, y, t.m1, t.src1, t.now1);
    PatchTwice(t.m, 4, x.serverOrigin, y.serverOrigin);
  }

  /** From the server: likewise, from the name the server was shown to the name the client chose, obfuscated in
      between or not. */
  lemma Downstream(c: State, s: State, x: Session, y: Session, t: Trip)
    requires WellFormed(c) && WellFormed(s) && Live(c.table, x) && Live(s.table, y) && Linked(x, y)
    requires EntersDown(c.table, s.table, x, y, t)
    ensures LeavesDown(c.table, s.table, x, y, t)
  {
    ServerHop(s, y, t.m, t.src, t.now);
    TransportCarried(t.link, t.m1, t.obfuscate, t.m2, t.marked);
    ServerHop(c, x, t.m1, t.src1, t.now1);
    PatchTwice(t.m, 4, y.clientOrigin, x.clientOrigin);
  }

  /** The handshake links the sessions: the response that mwgp-server shows its client makes mwgp-client record
      exactly the names that mwgp-server uses. */
  lemma HandshakeLinks(c: State, s: State, y: Session, proxy: Index, now: Time)
    requires WellFormed(s) && Live(s.table, y) && ReplyFor(s.table, y) in s.replies
    requires var shown := Emits(s, ForwardReply(ReplyFor(s.table, y)));
             shown.SendResponse? && Orderly(c) && Matched(c, HandleResponse(shown.sender, shown.receiver, proxy, now))
    ensures var shown := Emits(s, ForwardReply(ReplyFor(s.table, y)));
            var e := HandleResponse(shown.sender, shown.receiver, proxy, now);
            var x := Started(c, e);
            Live(Next(c, e).table, x) && x.serverProxy == proxy && Linked(x, y)
  {
    ResponseShown(s, y);
    var shown := Emits(s, ForwardReply(ReplyFor(s.table, y)));
    ResponseStarts(c, HandleResponse(shown.sender, shown.receiver, proxy, now));
  }

  /** A run in which a live session is not ended. */
  ghost predicate Underway(s: State, es: seq<Event>, x: Session) {
    Orderly(s) && Live(s.table, x) && NeverEnds(s, es, x)
  }

  /** Whatever each of the two processes does in the meantime - other sessions, roaming, address updates, saves and
      restarts - linked sessions act as one translation in both directions for as long as both live. */
  lemma TwoHopTransparency(c: State, es: seq<Event>, s: State, fs: seq<Event>, x: Session, y: Session, t: Trip)
    requires Underway(c, es, x) && Underway(s, fs, y) && Linked(x, y)
    ensures var c', s' := Run(c, es).table, Run(s, fs).table;
            && Live(c', x) && Live(s', y)
            && (EntersUp(c', s', x, y, t) ==> LeavesUp(s', x, y, t))
            && (EntersDown(c', s', x, y, t) ==> LeavesDown(c', s', x, y, t))
  {
    RunLivesOn(c, es, x);
    RunLivesOn(s, fs, y);
    var c', s' := Run(c, es), Run(s, fs);
    if EntersUp(c'.table, s'.table, x, y, t) {
      Upstream(c', s', x, y, t);
    }
    if EntersDown(c'.table, s'.table, x, y, t) {
      Downstream(c', s', x, y, t);
    }
  }
}

/** The index translation table as a value (wgit.go): what each lock region does to it.

    Peers are shared objects in the source; here they live in `heap` and the two maps hold their
    positions, so that sharing between the maps stays visible. */
module Tables {
  import opened Bytes
  import Alloc

  const LEVEL_DEFAULT := 0
  const LEVEL_NONE := 1
  const LEVEL_IP := 2
  const LEVEL_IP_AND_PORT := 3

  type PeerId = nat

  datatype Peer = Peer(
    clientOrigin: Index,     // what the client calls itself
    clientProxy: Index,      // what we call the client towards the server; 0 before registration
    serverOrigin: Index,     // what the server calls itself
    serverProxy: Index,      // what we call the server towards the client; 0 before the response
    clientKey: PublicKey,
    serverKey: PublicKey,
    clientCookie: PublicKey, // the key that initialised the generator for initiations
    serverCookie: PublicKey, // the key that initialised the generator for responses
    clientDest: Addr,
    serverDest: Addr,
    lastActive: Time,
    clientLevel: int,
    serverLevel: int,
    obfuscate: bool)

  predicate Replied(p: Peer) {
    p.serverProxy != 0
  }

  /** What peer extraction tells the table about an initiation. */
  datatype Rule = Rule(clientKey: PublicKey, serverKey: PublicKey, forwardTo: Addr, clientLevel: int, serverLevel: int)

  /** A peer as `processClientMessageInitiation` makes it. The rule's server level is not copied. */
  function NewPeer(rule: Rule, src: Addr, sender: Index, now: Time): Peer {
    Peer(sender, 0, 0, 0, rule.clientKey, rule.serverKey, rule.serverKey, rule.clientKey,
         src, rule.forwardTo, now, rule.clientLevel, LEVEL_DEFAULT, false)
  }

  datatype Table = Table(heap: seq<Peer>, clientMap: map<Index, PeerId>, serverMap: map<Index, PeerId>)

  const EMPTY := Table([], map[], map[])

  predicate InHeap(t: Table) {
    && (forall k :: k in t.clientMap ==> t.clientMap[k] < |t.heap|)
    && (forall k :: k in t.serverMap ==> t.serverMap[k] < |t.heap|)
  }

  /** `order` lists every key of `m` once: one possible iteration order. */
  ghost predicate Enumerates<P>(order: seq<Index>, m: map<Index, P>) {
    && (forall i, j :: 0 <= i < j < |order| ==> order[i] != order[j])
    && (forall i :: 0 <= i < |order| ==> order[i] in m)
    && (forall k :: k in m ==> k in order)
  }

  // ---------------------------------------------------------------- the steps

  function Create(t: Table, p: Peer): Table {
    t.(heap := t.heap + [p])
  }

  /** Lines 409-412: register peer `id` under the proxy index it was given. */
  function Insert(t: Table, id: PeerId, proxy: Index): Table
    requires id < |t.heap|
  {
    t.(heap := t.heap[id := t.heap[id].(clientProxy := proxy)], clientMap := t.clientMap[proxy := id])
  }

  function MarkObfuscated(t: Table, id: PeerId): Table
    requires id < |t.heap|
  {
    t.(heap := t.heap[id := t.heap[id].(obfuscate := true)])
  }

  /** Lines 435-439: the response for a registered peer. */
  function Respond(t: Table, receiver: Index, sender: Index, proxy: Index, now: Time): Table
    requires InHeap(t) && receiver in t.clientMap
  {
    var id := t.clientMap[receiver];
    t.(heap := t.heap[id := t.heap[id].(lastActive := now, serverOrigin := sender, serverProxy := proxy)],
       serverMap := t.serverMap[proxy := id])
  }

  predicate ClientAccepts(p: Peer, src: Addr) {
    && (p.clientLevel == LEVEL_IP ==> src.ip == p.clientDest.ip)
    && (p.clientLevel == LEVEL_IP_AND_PORT ==> src == p.clientDest)
  }

  predicate ServerAccepts(p: Peer, src: Addr) {
    Replied(p) ==>
      && (p.serverLevel == LEVEL_IP ==> src.ip == p.serverDest.ip)
      && (p.serverLevel == LEVEL_DEFAULT || p.serverLevel == LEVEL_IP_AND_PORT ==> src == p.serverDest)
  }

  /** The peer after a matched packet from the client: active even when refused, moved when accepted. */
  function AfterClientPacket(p: Peer, src: Addr, now: Time): Peer {
    var q := p.(lastActive := now);
    if ClientAccepts(p, src) then q.(clientDest := src) else q
  }

  /** A transport packet from the client: the new table, and the peer if the packet is accepted. */
  function FromClient(t: Table, receiver: Index, src: Addr, now: Time): (Table, Option<PeerId>)
    requires InHeap(t)
  {
    if receiver == 0 || receiver !in t.serverMap then (t, None) else
    var id := t.serverMap[receiver];
    var t' := t.(heap := t.heap[id := AfterClientPacket(t.heap[id], src, now)]);
    (t', if ClientAccepts(t.heap[id], src) then Some(id) else None)
  }

  function FromServer(t: Table, receiver: Index, src: Addr, now: Time): (Table, Option<PeerId>)
    requires InHeap(t)
  {
    if receiver == 0 || receiver !in t.clientMap then (t, None) else
    var id := t.clientMap[receiver];
    var t' := t.(heap := t.heap[id := t.heap[id].(lastActive := now)]);
    (t', if ServerAccepts(t.heap[id], src) then Some(id) else None)
  }

  predicate Stale(t: Table, k: Index, cutoff: Time)
    requires InHeap(t) && k in t.clientMap
  {
    t.heap[t.clientMap[k]].lastActive < cutoff
  }

  /** The stale client keys among `ks`. */
  function StaleKeys(t: Table, cutoff: Time, ks: set<Index>): set<Index>
    requires InHeap(t)
  {
    set k | k in ks && k in t.clientMap && Stale(t, k, cutoff)
  }

  /** The server keys of the peers registered under `ks`. */
  function ServerKeys(t: Table, ks: set<Index>): set<Index>
    requires InHeap(t)
  {
    set k | k in ks && k in t.clientMap :: t.heap[t.clientMap[k]].serverProxy
  }

  /** Expiry of the entries under `ks`: the stale ones go, with their server keys. */
  function ExpireSome(t: Table, cutoff: Time, ks: set<Index>): Table
    requires InHeap(t)
  {
    var gone := StaleKeys(t, cutoff, ks);
    t.(clientMap := t.clientMap - gone, serverMap := t.serverMap - ServerKeys(t, gone))
  }

  function Expire(t: Table, cutoff: Time): Table
    requires InHeap(t)
  {
    ExpireSome(t, cutoff, t.clientMap.Keys)
  }

  lemma ExpireNone(t: Table, cutoff: Time)
    requires InHeap(t)
    ensures ExpireSome(t, cutoff, {}) == t
  {
    assert StaleKeys(t, cutoff, {}) == {} && ServerKeys(t, {}) == {};
  }

  lemma ExpireOneMore(t: Table, cutoff: Time, done: set<Index>, k: Index)
    requires InHeap(t) && k in t.clientMap
    ensures var u := ExpireSome(t, cutoff, done);
            ExpireSome(t, cutoff, done + {k}) ==
            if Stale(t, k, cutoff)
            then u.(clientMap := u.clientMap - {k}, serverMap := u.serverMap - {t.heap[t.clientMap[k]].serverProxy})
            else u
  {
    var gone, more := StaleKeys(t, cutoff, done), StaleKeys(t, cutoff, done + {k});
    if Stale(t, k, cutoff) {
      var sp := t.heap[t.clientMap[k]].serverProxy;
      assert more == gone + {k};
      assert ServerKeys(t, more) == ServerKeys(t, gone) + {sp};
      assert t.clientMap - more == (t.clientMap - gone) - {k};
      assert t.serverMap - ServerKeys(t, more) == (t.serverMap - ServerKeys(t, gone)) - {sp};
    } else {
      assert more == gone;
    }
  }

  /** Lines 598-600: look at the entry under `k`, if it is still there, and delete its peer's two keys when stale. */
  function ExpireKey(t: Table, cutoff: Time, k: Index): (u: Table)
    requires InHeap(t)
    ensures InHeap(u)
  {
    if k in t.clientMap && Stale(t, k, cutoff) then
      var p := t.heap[t.clientMap[k]];
      t.(clientMap := t.clientMap - {p.clientProxy}, serverMap := t.serverMap - {p.serverProxy})
    else t
  }

  /** Looking at `k` after `done` deletes it if it is stale, and does nothing if it is gone already. */
  lemma ExpireAgain(t: Table, cutoff: Time, done: set<Index>, k: Index)
    requires InHeap(t) && ClientKeys(t) && k in t.clientMap
    ensures var u := ExpireSome(t, cutoff, done);
            InHeap(u) && ExpireKey(u, cutoff, k) ==
            if Stale(t, k, cutoff)
            then u.(clientMap := u.clientMap - {k}, serverMap := u.serverMap - {t.heap[t.clientMap[k]].serverProxy})
            else u
  {
    var u := ExpireSome(t, cutoff, done);
    if k in done && Stale(t, k, cutoff) {
      assert u.clientMap - {k} == u.clientMap;
      assert t.heap[t.clientMap[k]].serverProxy !in u.serverMap;
      assert u.serverMap - {t.heap[t.clientMap[k]].serverProxy} == u.serverMap;
    }
  }

  /** One turn of the loop: whatever has been looked at before, looking at `k` completes the job for `k`. */
  lemma ExpireTurn(t: Table, cutoff: Time, done: set<Index>, k: Index, u: Table, v: Table)
    requires InHeap(t) && ClientKeys(t) && k in t.clientMap && InHeap(u)
    requires u == ExpireSome(t, cutoff, done) && v == ExpireKey(u, cutoff, k)
    ensures v == ExpireSome(t, cutoff, done + {k})
  {
    ExpireOneMore(t, cutoff, done, k);
    ExpireAgain(t, cutoff, done, k);
  }

  /** The whole loop, when the map is iterated in `order`. */
  function ExpireInOrder(t: Table, cutoff: Time, order: seq<Index>): (u: Table)
    requires InHeap(t)
    ensures InHeap(u)
  {
    if order == [] then t
    else ExpireKey(ExpireInOrder(t, cutoff, order[..|order| - 1]), cutoff, order[|order| - 1])
  }

  lemma ExpireNext(t: Table, cutoff: Time, order: seq<Index>, k: Index)
    requires InHeap(t)
    ensures ExpireInOrder(t, cutoff, order + [k]) == ExpireKey(ExpireInOrder(t, cutoff, order), cutoff, k)
  {
    assert (order + [k])[..|order|] == order;
  }

  function Visited(order: seq<Index>): set<Index> {
    set k | k in order
  }

  lemma VisitedNext(order: seq<Index>, k: Index)
    ensures Visited(order + [k]) == Visited(order) + {k}
  {
  }

  lemma {:induction false} ExpireSoFar(t: Table, cutoff: Time, order: seq<Index>)
    requires InHeap(t) && ClientKeys(t) && forall i :: 0 <= i < |order| ==> order[i] in t.clientMap
    ensures ExpireInOrder(t, cutoff, order) == ExpireSome(t, cutoff, Visited(order))
  {
    hide ExpireSome, ExpireKey;
    if order == [] {
      ExpireNone(t, cutoff);
      assert Visited(order) == {};
    } else {
      var init, k := order[..|order| - 1], order[|order| - 1];
      assert order == init + [k];
      ExpireSoFar(t, cutoff, init);
      var u := ExpireInOrder(t, cutoff, init);
      ExpireTurn(t, cutoff, Visited(init), k, u, ExpireKey(u, cutoff, k));
      VisitedNext(init, k);
    }
  }

  /** Whatever the order, the loop that deletes while iterating removes exactly what is stale, as long as every key is
      its peer's own. */
  lemma ExpireOrderIrrelevant(t: Table, cutoff: Time, order: seq<Index>)
    requires InHeap(t) && ClientKeys(t) && Enumerates(order, t.clientMap)
    ensures ExpireInOrder(t, cutoff, order) == Expire(t, cutoff)
  {
    ExpireSoFar(t, cutoff, order);
    assert Visited(order) == t.clientMap.Keys;
    hide ExpireSome;
  }

  /** What an iteration of `m` has yielded, and what it has yet to yield. */
  ghost predicate Iterates<P>(order: seq<Index>, todo: set<Index>, m: map<Index, P>) {
    && todo <= m.Keys
    && (forall i, j :: 0 <= i < j < |order| ==> order[i] != order[j])
    && (forall i :: 0 <= i < |order| ==> order[i] in m && order[i] !in todo)
    && (forall k :: k in m && k !in todo ==> k in order)
  }

  lemma IteratesOn<P>(order: seq<Index>, todo: set<Index>, m: map<Index, P>, k: Index)
    requires Iterates(order, todo, m) && k in todo
    ensures Iterates(order + [k], todo - {k}, m)
  {
    forall l | l in m && l !in todo - {k}
      ensures l in order + [k]
    {
      assert l == k || l in order;
      assert (order + [k])[|order|] == k;
    }
  }

  lemma IteratesAll<P>(order: seq<Index>, m: map<Index, P>)
    requires Iterates(order, {}, m)
    ensures Enumerates(order, m)
  {
  }

  /** An update part way: the peers in `ids` carry the new address. */
  function UpdateSome(t: Table, addr: Addr, ids: set<PeerId>): Table {
    t.(heap := seq(|t.heap|, i requires 0 <= i < |t.heap| =>
         if i in ids then t.heap[i].(serverDest := addr) else t.heap[i]))
  }

  function UpdateServers(t: Table, addr: Addr): Table {
    UpdateSome(t, addr, t.clientMap.Values)
  }

  lemma UpdateAll(t: Table, addr: Addr, ids: set<PeerId>, u: Table)
    requires ids == t.clientMap.Values && u == UpdateSome(t, addr, ids)
    ensures u == UpdateServers(t, addr)
  {
  }

  lemma UpdateNone(t: Table, addr: Addr)
    ensures UpdateSome(t, addr, {}) == t
  {
    assert UpdateSome(t, addr, {}).heap == t.heap;
  }

  lemma UpdateTurn(t: Table, addr: Addr, ids: set<PeerId>, id: PeerId, u: Table, v: Table)
    requires id < |t.heap| && u == UpdateSome(t, addr, ids)
    requires |u.heap| == |t.heap| && v == u.(heap := u.heap[id := u.heap[id].(serverDest := addr)])
    ensures v == UpdateSome(t, addr, ids + {id})
  {
    assert v.heap == UpdateSome(t, addr, ids + {id}).heap;
  }

  // ---------------------------------------------------------------- the invariant

  predicate ClientKeys(t: Table)
    requires InHeap(t)
  {
    forall k :: k in t.clientMap ==> k != 0 && t.heap[t.clientMap[k]].clientProxy == k
  }

  /** Every replied peer can be found under its current server proxy index. */
  predicate CurrentKeys(t: Table)
    requires InHeap(t)
  {
    forall k :: k in t.clientMap && Replied(t.heap[t.clientMap[k]]) ==>
      var sp := t.heap[t.clientMap[k]].serverProxy; sp in t.serverMap && t.serverMap[sp] == t.clientMap[k]
  }

  /** Every server key is its peer's current one, and its peer is registered: nothing leaks. */
  predicate NoLeak(t: Table)
    requires InHeap(t)
  {
    forall k :: k in t.serverMap ==>
      var p := t.heap[t.serverMap[k]];
      p.serverProxy == k && p.clientProxy in t.clientMap && t.clientMap[p.clientProxy] == t.serverMap[k]
  }

  /** What holds however many responses a peer gets. */
  predicate WeakInv(t: Table) {
    InHeap(t) && ClientKeys(t) && CurrentKeys(t) && 0 !in t.serverMap
  }

  predicate Inv(t: Table) {
    WeakInv(t) && NoLeak(t)
  }

  /** A consequence: distinct keys hold distinct peers, in both maps. */
  lemma DistinctPeers(t: Table)
    requires Inv(t)
    ensures forall k, l :: k in t.clientMap && l in t.clientMap && k != l ==> t.clientMap[k] != t.clientMap[l]
    ensures forall k, l :: k in t.serverMap && l in t.serverMap && k != l ==> t.serverMap[k] != t.serverMap[l]
    ensures t.serverMap.Values == set k | k in t.clientMap && Replied(t.heap[t.clientMap[k]]) :: t.clientMap[k]
  {
    var replied := set k | k in t.clientMap && Replied(t.heap[t.clientMap[k]]) :: t.clientMap[k];
    forall id | id in t.serverMap.Values
      ensures id in replied
    {
      var k :| k in t.serverMap && t.serverMap[k] == id;
      assert t.heap[id].clientProxy in t.clientMap;
    }
    forall id | id in replied
      ensures id in t.serverMap.Values
    {
      assert t.heap[id].serverProxy in t.serverMap;
    }
  }

  // ---------------------------------------------------------------- every step keeps it

  lemma CreateKeeps(t: Table, p: Peer)
    requires Inv(t)
    ensures Inv(Create(t, p))
  {
  }

  lemma InsertKeeps(t: Table, id: PeerId, proxy: Index)
    requires Inv(t) && id < |t.heap| && t.heap[id].clientProxy == 0 && !Replied(t.heap[id])
    requires Alloc.Free(t.clientMap, proxy)
    ensures Inv(Insert(t, id, proxy))
  {
    assert id !in t.clientMap.Values && id !in t.serverMap.Values;
  }

  lemma MarkKeeps(t: Table, id: PeerId)
    requires Inv(t) && id < |t.heap|
    ensures Inv(MarkObfuscated(t, id))
  {
  }

  /** A response to a registered peer keeps the invariant exactly when it is the first one. */
  lemma RespondKeeps(t: Table, receiver: Index, sender: Index, proxy: Index, now: Time)
    requires Inv(t) && receiver in t.clientMap && Alloc.Free(t.serverMap, proxy)
    ensures WeakInv(Respond(t, receiver, sender, proxy, now))
    ensures Inv(Respond(t, receiver, sender, proxy, now)) <==> !Replied(t.heap[t.clientMap[receiver]])
  {
    var id := t.clientMap[receiver];
    var t' := Respond(t, receiver, sender, proxy, now);
    DistinctPeers(t);
    if Replied(t.heap[id]) {
      var stale := t.heap[id].serverProxy;
      assert stale in t'.serverMap && t'.heap[t'.serverMap[stale]].serverProxy == proxy != stale;
    }
  }

  lemma FromClientKeeps(t: Table, receiver: Index, src: Addr, now: Time)
    requires InHeap(t)
    ensures WeakInv(t) ==> WeakInv(FromClient(t, receiver, src, now).0)
    ensures Inv(t) ==> Inv(FromClient(t, receiver, src, now).0)
  {
  }

  /** A client packet changes at most one peer, and of it only the time and the client address. */
  lemma FromClientFrame(t: Table, receiver: Index, src: Addr, now: Time)
    requires InHeap(t)
    ensures var t' := FromClient(t, receiver, src, now).0;
            && t'.clientMap == t.clientMap && t'.serverMap == t.serverMap && |t'.heap| == |t.heap|
            && (forall i :: 0 <= i < |t.heap| ==>
                 t'.heap[i] == t.heap[i].(lastActive := t'.heap[i].lastActive, clientDest := t'.heap[i].clientDest))
            && forall i :: 0 <= i < |t.heap| && !(receiver in t.serverMap && t.serverMap[receiver] == i) ==>
                 t'.heap[i] == t.heap[i]
  {
  }

  /** A server packet changes at most one peer, and of it only the time. */
  lemma FromServerFrame(t: Table, receiver: Index, src: Addr, now: Time)
    requires InHeap(t)
    ensures var t' := FromServer(t, receiver, src, now).0;
            && t'.clientMap == t.clientMap && t'.serverMap == t.serverMap && |t'.heap| == |t.heap|
            && (forall i :: 0 <= i < |t.heap| ==> t'.heap[i] == t.heap[i].(lastActive := t'.heap[i].lastActive))
            && forall i :: 0 <= i < |t.heap| && !(receiver in t.clientMap && t.clientMap[receiver] == i) ==>
                 t'.heap[i] == t.heap[i]
  {
  }

  lemma FromServerKeeps(t: Table, receiver: Index, src: Addr, now: Time)
    requires InHeap(t)
    ensures WeakInv(t) ==> WeakInv(FromServer(t, receiver, src, now).0)
    ensures Inv(t) ==> Inv(FromServer(t, receiver, src, now).0)
  {
  }

  /** Expiry leaves exactly the active peers, in both maps. */
  lemma ExpireExact(t: Table, cutoff: Time)
    requires Inv(t)
    ensures Inv(Expire(t, cutoff))
    ensures forall k :: k in Expire(t, cutoff).clientMap <==>
            k in t.clientMap && t.heap[t.clientMap[k]].lastActive >= cutoff
    ensures forall k :: k in Expire(t, cutoff).serverMap <==>
            k in t.serverMap && t.heap[t.serverMap[k]].lastActive >= cutoff
    ensures forall k :: k in Expire(t, cutoff).clientMap ==> Expire(t, cutoff).clientMap[k] == t.clientMap[k]
    ensures forall k :: k in Expire(t, cutoff).serverMap ==> Expire(t, cutoff).serverMap[k] == t.serverMap[k]
  {
    var stale := StaleKeys(t, cutoff, t.clientMap.Keys);
    forall k | k in t.serverMap
      ensures k in ServerKeys(t, stale) <==> t.heap[t.serverMap[k]].lastActive < cutoff
    {
      var cp := t.heap[t.serverMap[k]].clientProxy;
      assert t.clientMap[cp] == t.serverMap[k];
    }
  }

  /** After an update every peer that either map can reach carries the new address. */
  lemma UpdateComplete(t: Table, addr: Addr)
    requires Inv(t)
    ensures Inv(UpdateServers(t, addr))
    ensures var t' := UpdateServers(t, addr);
            && (forall k :: k in t'.clientMap ==> t'.heap[t'.clientMap[k]].serverDest == addr)
            && (forall k :: k in t'.serverMap ==> t'.heap[t'.serverMap[k]].serverDest == addr)
  {
  }

  lemma UpdateKeepsWeak(t: Table, addr: Addr)
    requires WeakInv(t)
    ensures WeakInv(UpdateServers(t, addr))
  {
  }

  lemma ExpireKeepsWeak(t: Table, cutoff: Time)
    requires WeakInv(t)
    ensures WeakInv(Expire(t, cutoff))
  {
  }

  lemma RespondKeepsWeak(t: Table, receiver: Index, sender: Index, proxy: Index, now: Time)
    requires WeakInv(t) && receiver in t.clientMap && Alloc.Free(t.serverMap, proxy)
    ensures WeakInv(Respond(t, receiver, sender, proxy, now))
  {
  }
}

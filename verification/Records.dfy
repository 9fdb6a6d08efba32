/** The persisted table (cache.go), with the file abstracted to a sequence of records. */
module Records {
  import opened Bytes
  import opened Tables

  /** One saved peer. An empty address string is `None`. */
  datatype Record = Record(
    clientOrigin: Index, clientProxy: Index, clientKey: PublicKey, clientDest: Option<Addr>, clientLevel: int,
    serverOrigin: Index, serverProxy: Index, serverKey: PublicKey, serverDest: Option<Addr>, serverLevel: int,
    obfuscate: bool)

  function ToRecord(p: Peer): Record {
    Record(p.clientOrigin, p.clientProxy, p.clientKey, Some(p.clientDest), p.clientLevel,
           p.serverOrigin, p.serverProxy, p.serverKey, Some(p.serverDest), p.serverLevel, p.obfuscate)
  }

  /** The peer read back from a record, or `None` where the source reports an error. Both cookie generators are
      initialised with the key opposite to the one `NewPeer` uses. */
  function FromRecord(r: Record, now: Time): Option<Peer> {
    if r.clientDest.None? || r.serverDest.None? then None else
    Some(Peer(r.clientOrigin, r.clientProxy, r.serverOrigin, r.serverProxy, r.clientKey, r.serverKey,
              r.clientKey, r.serverKey, r.clientDest.value, r.serverDest.value, now,
              r.clientLevel, r.serverLevel, r.obfuscate))
  }

  /** What the file says of a peer, entry by entry: both its names for each end, both keys, addresses and levels. */
  lemma RecordExactly(p: Peer)
    ensures var r := ToRecord(p);
            && r.clientOrigin == p.clientOrigin && r.clientProxy == p.clientProxy
            && r.serverOrigin == p.serverOrigin && r.serverProxy == p.serverProxy
            && r.clientKey == p.clientKey && r.serverKey == p.serverKey
            && r.clientDest == Some(p.clientDest) && r.serverDest == Some(p.serverDest)
            && r.clientLevel == p.clientLevel && r.serverLevel == p.serverLevel && r.obfuscate == p.obfuscate
  {
  }

  /** The records written when the server map is iterated in `order`. */
  function Saved(t: Table, order: seq<Index>): (rs: seq<Record>)
    requires InHeap(t) && forall i :: 0 <= i < |order| ==> order[i] in t.serverMap
  {
    seq(|order|, i requires 0 <= i < |order| => ToRecord(t.heap[t.serverMap[order[i]]]))
  }

  lemma SavedNext(t: Table, order: seq<Index>, k: Index)
    requires InHeap(t) && k in t.serverMap && forall i :: 0 <= i < |order| ==> order[i] in t.serverMap
    ensures Saved(t, order + [k]) == Saved(t, order) + [ToRecord(t.heap[t.serverMap[k]])]
  {
  }

  function LoadOne(t: Table, r: Record, now: Time): Table {
    match FromRecord(r, now)
    case None => t
    case Some(p) =>
      var id := |t.heap|;
      Table(t.heap + [p], t.clientMap[p.clientProxy := id],
            if p.serverProxy != 0 then t.serverMap[p.serverProxy := id] else t.serverMap)
  }

  function Load(t: Table, rs: seq<Record>, now: Time): Table {
    if rs == [] then t else LoadOne(Load(t, rs[..|rs| - 1], now), rs[|rs| - 1], now)
  }

  /** Whatever the file holds, the loaded maps stay within the heap, and every peer comes from a record. */
  lemma {:induction false} LoadedFrom(rs: seq<Record>, now: Time)
    ensures InHeap(Load(EMPTY, rs, now))
    ensures forall id :: 0 <= id < |Load(EMPTY, rs, now).heap| ==> FromSome(rs, now, Load(EMPTY, rs, now).heap[id])
  {
    if rs != [] {
      var n := |rs| - 1;
      LoadedFrom(rs[..n], now);
      var t := Load(EMPTY, rs[..n], now);
      var t' := LoadOne(t, rs[n], now);
      assert Load(EMPTY, rs, now) == t';
      forall id | 0 <= id < |t'.heap|
        ensures FromSome(rs, now, t'.heap[id])
      {
        if id < |t.heap| {
          assert t'.heap[id] == t.heap[id];
          var i :| 0 <= i < |rs[..n]| && FromRecord(rs[..n][i], now) == Some(t.heap[id]);
          assert FromRecord(rs[i], now) == Some(t'.heap[id]);
        }
      }
    }
  }

  ghost predicate FromSome(rs: seq<Record>, now: Time, p: Peer) {
    exists i :: 0 <= i < |rs| && FromRecord(rs[i], now) == Some(p)
  }

  predicate Usable(r: Record) {
    r.clientDest.Some? && r.serverDest.Some?
  }

  /** Some usable record has this client key. */
  ghost predicate Lists(rs: seq<Record>, c: Index) {
    exists i :: 0 <= i < |rs| && Usable(rs[i]) && rs[i].clientProxy == c
  }

  lemma ListsPrefix(rs: seq<Record>, c: Index)
    requires rs != []
    ensures var n := |rs| - 1;
            Lists(rs, c) <==> Lists(rs[..n], c) || (Usable(rs[n]) && rs[n].clientProxy == c)
  {
    var n := |rs| - 1;
    assert rs == rs[..n] + [rs[n]];
    if Lists(rs[..n], c) {
      var i :| 0 <= i < |rs[..n]| && Usable(rs[..n][i]) && rs[..n][i].clientProxy == c;
      assert rs[i] == rs[..n][i];
    }
  }

  /** Whatever the file holds, the loaded client keys are those it lists, and each is its peer's own. */
  lemma {:induction false} LoadedKeys(rs: seq<Record>, now: Time, c: Index)
    ensures InHeap(Load(EMPTY, rs, now))
    ensures var t := Load(EMPTY, rs, now);
            (c in t.clientMap <==> Lists(rs, c)) && (c in t.clientMap ==> t.heap[t.clientMap[c]].clientProxy == c)
  {
    LoadedFrom(rs, now);
    if rs != [] {
      LoadedFrom(rs[..|rs| - 1], now);
      LoadedKeys(rs[..|rs| - 1], now, c);
      ListsPrefix(rs, c);
    }
  }

  // ---------------------------------------------------------------- loading well-formed records

  ghost predicate GoodRecords(rs: seq<Record>) {
    && (forall i :: 0 <= i < |rs| ==>
          rs[i].clientDest.Some? && rs[i].serverDest.Some? && rs[i].clientProxy != 0 && rs[i].serverProxy != 0)
    && (forall i, j :: 0 <= i < j < |rs| ==> rs[i].clientProxy != rs[j].clientProxy)
    && (forall i, j :: 0 <= i < j < |rs| ==> rs[i].serverProxy != rs[j].serverProxy)
  }

  /** Record `i` has become peer `i`, reachable under both its keys. */
  predicate LoadedAt(t: Table, rs: seq<Record>, now: Time, i: nat)
    requires i < |rs|
  {
    && i < |t.heap| && FromRecord(rs[i], now) == Some(t.heap[i])
    && rs[i].clientProxy in t.clientMap && t.clientMap[rs[i].clientProxy] == i
    && rs[i].serverProxy in t.serverMap && t.serverMap[rs[i].serverProxy] == i
  }

  /** The records have become the peers, and there are no other keys. */
  ghost predicate Loaded(t: Table, rs: seq<Record>, now: Time) {
    && InHeap(t) && |t.heap| == |rs|
    && (forall i :: 0 <= i < |rs| ==> LoadedAt(t, rs, now, i))
    && (forall k :: k in t.clientMap ==> rs[t.clientMap[k]].clientProxy == k)
    && (forall k :: k in t.serverMap ==> rs[t.serverMap[k]].serverProxy == k)
  }

  lemma LoadOneKeeps(t: Table, rs: seq<Record>, r: Record, now: Time)
    requires Loaded(t, rs, now) && GoodRecords(rs + [r])
    ensures Loaded(LoadOne(t, r, now), rs + [r], now)
  {
    var rs' := rs + [r];
    assert rs'[|rs|] == r;
    var t' := LoadOne(t, r, now);
    forall i | 0 <= i < |rs'|
      ensures LoadedAt(t', rs', now, i)
    {
      if i < |rs| {
        assert LoadedAt(t, rs, now, i);
        assert rs'[i].clientProxy != rs'[|rs|].clientProxy && rs'[i].serverProxy != rs'[|rs|].serverProxy;
      }
    }
  }

  lemma {:induction false} LoadGood(rs: seq<Record>, now: Time)
    requires GoodRecords(rs)
    ensures Loaded(Load(EMPTY, rs, now), rs, now)
  {
    if rs != [] {
      var init := rs[..|rs| - 1];
      LoadGood(init, now);
      assert rs == init + [rs[|rs| - 1]];
      LoadOneKeeps(Load(EMPTY, init, now), init, rs[|rs| - 1], now);
    }
  }

  lemma LoadedInv(t: Table, rs: seq<Record>, now: Time)
    requires GoodRecords(rs) && Loaded(t, rs, now)
    ensures Inv(t)
  {
    forall k | k in t.clientMap
      ensures k != 0 && t.heap[t.clientMap[k]].clientProxy == k
      ensures var sp := t.heap[t.clientMap[k]].serverProxy; sp in t.serverMap && t.serverMap[sp] == t.clientMap[k]
    {
      assert LoadedAt(t, rs, now, t.clientMap[k]);
    }
    forall k | k in t.serverMap
      ensures k != 0 && t.heap[t.serverMap[k]].serverProxy == k
      ensures var cp := t.heap[t.serverMap[k]].clientProxy; cp in t.clientMap && t.clientMap[cp] == t.serverMap[k]
    {
      assert LoadedAt(t, rs, now, t.serverMap[k]);
    }
  }

  // ---------------------------------------------------------------- files that repeat records

  /** A file whose records are usable, and equal where they share an index. */
  ghost predicate Consistent(rs: seq<Record>) {
    && (forall i :: 0 <= i < |rs| ==> Usable(rs[i]) && rs[i].clientProxy != 0 && rs[i].serverProxy != 0)
    && (forall i, j :: 0 <= i < |rs| && 0 <= j < |rs| ==> Agree(rs[i], rs[j]))
  }

  predicate Agree(r: Record, r': Record) {
    r.clientProxy == r'.clientProxy || r.serverProxy == r'.serverProxy ==> r == r'
  }

  lemma GoodIsConsistent(rs: seq<Record>)
    requires GoodRecords(rs)
    ensures Consistent(rs)
  {
  }

  /** Every loaded peer comes from a record that shares no index with `r` unless it is `r`. */
  lemma Unlike(rs: seq<Record>, now: Time, r: Record, id: PeerId)
    requires Consistent(rs + [r]) && id < |Load(EMPTY, rs, now).heap|
    ensures var p := Load(EMPTY, rs, now).heap[id];
            p.clientProxy == r.clientProxy <==> p.serverProxy == r.serverProxy
  {
    LoadedFrom(rs, now);
    var p := Load(EMPTY, rs, now).heap[id];
    assert FromSome(rs, now, p);
    var i :| 0 <= i < |rs| && FromRecord(rs[i], now) == Some(p);
    assert (rs + [r])[i] == rs[i] && (rs + [r])[|rs|] == r;
  }

  /** A peer that shares both its keys or neither with every other one takes them over. */
  predicate FitsIn(t: Table, p: Peer) {
    && p.clientProxy != 0 && Replied(p)
    && forall id :: 0 <= id < |t.heap| ==>
      (t.heap[id].clientProxy == p.clientProxy <==> t.heap[id].serverProxy == p.serverProxy)
  }

  function Added(t: Table, p: Peer): Table {
    Table(t.heap + [p], t.clientMap[p.clientProxy := |t.heap|], t.serverMap[p.serverProxy := |t.heap|])
  }

  lemma AddedWeak(t: Table, p: Peer)
    requires Inv(t) && FitsIn(t, p)
    ensures WeakInv(Added(t, p))
  {
  }

  lemma AddedNoLeak(t: Table, p: Peer)
    requires Inv(t) && FitsIn(t, p) && InHeap(Added(t, p))
    ensures NoLeak(Added(t, p))
  {
  }

  lemma LoadOneInv(rs: seq<Record>, now: Time, r: Record)
    requires Consistent(rs + [r]) && Inv(Load(EMPTY, rs, now))
    ensures Inv(LoadOne(Load(EMPTY, rs, now), r, now))
  {
    var t := Load(EMPTY, rs, now);
    assert (rs + [r])[|rs|] == r;
    var p := FromRecord(r, now).value;
    assert LoadOne(t, r, now) == Added(t, p);
    forall id | 0 <= id < |t.heap|
      ensures t.heap[id].clientProxy == p.clientProxy <==> t.heap[id].serverProxy == p.serverProxy
    {
      Unlike(rs, now, r, id);
    }
    hide Load, LoadOne, Added, WeakInv, NoLeak;
    AddedWeak(t, p);
    AddedNoLeak(t, p);
  }

  /** Repeated records do no harm: the invariant holds after loading. */
  lemma {:induction false} ConsistentLoads(rs: seq<Record>, now: Time)
    requires Consistent(rs)
    ensures Inv(Load(EMPTY, rs, now))
  {
    if rs != [] {
      var init, r := rs[..|rs| - 1], rs[|rs| - 1];
      assert rs == init + [r];
      assert Consistent(init) by {
        forall i | 0 <= i < |init|
          ensures init[i] == rs[i]
        {
        }
      }
      ConsistentLoads(init, now);
      LoadOneInv(init, now, r);
    }
  }

  // ---------------------------------------------------------------- load after save

  lemma SavedGood(t: Table, order: seq<Index>)
    requires Inv(t) && Enumerates(order, t.serverMap)
    ensures GoodRecords(Saved(t, order))
  {
    var rs := Saved(t, order);
    DistinctPeers(t);
    forall i | 0 <= i < |rs|
      ensures rs[i].serverProxy == order[i] && rs[i].clientProxy in t.clientMap
              && t.clientMap[rs[i].clientProxy] == t.serverMap[order[i]]
    {
      assert order[i] in t.serverMap;
    }
  }

  /** The same peer, up to the cookie generators and the time of its last packet. */
  predicate SameSession(p: Peer, q: Peer) {
    p.(clientCookie := q.clientCookie, serverCookie := q.serverCookie, lastActive := q.lastActive) == q
  }

  /** Every server key leads to a registered, replied peer, though it may be one the peer was given before. */
  predicate AllRegistered(t: Table)
    requires InHeap(t)
  {
    forall k :: k in t.serverMap ==>
      var p := t.heap[t.serverMap[k]];
      Replied(p) && p.clientProxy in t.clientMap && t.clientMap[p.clientProxy] == t.serverMap[k]
  }

  /** `k` is the server key its peer has now. */
  predicate Current(t: Table, k: Index)
    requires InHeap(t)
  {
    k in t.serverMap && t.heap[t.serverMap[k]].serverProxy == k
  }

  lemma InvRegistered(t: Table)
    requires Inv(t)
    ensures AllRegistered(t) && forall k :: k in t.serverMap ==> Current(t, k)
  {
  }

  /** Then every save is consistent, however often peers were answered. */
  lemma SavedConsistent(t: Table, order: seq<Index>)
    requires WeakInv(t) && AllRegistered(t) && Enumerates(order, t.serverMap)
    ensures Consistent(Saved(t, order))
  {
    var rs := Saved(t, order);
    forall i | 0 <= i < |rs|
      ensures rs[i] == ToRecord(t.heap[t.serverMap[order[i]]]) && rs[i].clientProxy in t.clientMap
              && t.clientMap[rs[i].clientProxy] == t.serverMap[order[i]]
              && rs[i].serverProxy in t.serverMap && t.serverMap[rs[i].serverProxy] == t.serverMap[order[i]]
    {
      assert order[i] in t.serverMap;
    }
  }

  /** Both tables hold the same session under client key `c`. */
  predicate Paired(t: Table, u: Table, c: Index) {
    && c in t.clientMap && c in u.clientMap && t.clientMap[c] < |t.heap| && u.clientMap[c] < |u.heap|
    && SameSession(t.heap[t.clientMap[c]], u.heap[u.clientMap[c]])
  }

  /** `u` is `t` restricted to its replied peers, session by session, and to the server keys these have now. */
  ghost predicate Restarted(t: Table, u: Table)
    requires InHeap(t)
  {
    && (forall c :: c in u.clientMap <==> c in t.clientMap && Replied(t.heap[t.clientMap[c]]))
    && (forall c :: c in u.clientMap ==> Paired(t, u, c))
    && (forall k :: k in u.serverMap <==> Current(t, k))
  }

  /** A record with client key `c` is that of the peer registered under `c`. */
  lemma SavedListed(t: Table, order: seq<Index>, c: Index)
    requires WeakInv(t) && AllRegistered(t) && Enumerates(order, t.serverMap)
    ensures Lists(Saved(t, order), c) <==> c in t.clientMap && Replied(t.heap[t.clientMap[c]])
    ensures forall i :: 0 <= i < |order| && Saved(t, order)[i].clientProxy == c ==>
              c in t.clientMap && Saved(t, order)[i] == ToRecord(t.heap[t.clientMap[c]])
  {
    var rs := Saved(t, order);
    forall i | 0 <= i < |order| && rs[i].clientProxy == c
      ensures c in t.clientMap && rs[i] == ToRecord(t.heap[t.clientMap[c]]) && Replied(t.heap[t.clientMap[c]])
    {
      assert order[i] in t.serverMap;
    }
    if c in t.clientMap && Replied(t.heap[t.clientMap[c]]) {
      var sp := t.heap[t.clientMap[c]].serverProxy;
      var i :| 0 <= i < |order| && order[i] == sp;
      assert Usable(rs[i]) && rs[i].clientProxy == c;
    }
  }

  lemma SessionLoaded(t: Table, order: seq<Index>, now: Time, c: Index)
    requires WeakInv(t) && AllRegistered(t) && Enumerates(order, t.serverMap)
    ensures var u := Load(EMPTY, Saved(t, order), now);
            && (c in u.clientMap <==> c in t.clientMap && Replied(t.heap[t.clientMap[c]]))
            && (c in u.clientMap ==> Paired(t, u, c))
  {
    var rs := Saved(t, order);
    SavedListed(t, order, c);
    LoadedKeys(rs, now, c);
    LoadedFrom(rs, now);
    var u := Load(EMPTY, rs, now);
    if c in u.clientMap {
      var p := u.heap[u.clientMap[c]];
      assert FromSome(rs, now, p);
      var i :| 0 <= i < |rs| && FromRecord(rs[i], now) == Some(p);
    }
  }

  /** Paired by client keys, two tables have the same current server keys. */
  lemma SameServerKeys(t: Table, u: Table, k: Index)
    requires WeakInv(t) && AllRegistered(t) && Inv(u)
    requires forall c :: c in u.clientMap <==> c in t.clientMap && Replied(t.heap[t.clientMap[c]])
    requires forall c :: c in u.clientMap ==> Paired(t, u, c)
    ensures k in u.serverMap <==> Current(t, k)
  {
    if k in u.serverMap {
      assert Paired(t, u, u.heap[u.serverMap[k]].clientProxy);
    }
    if Current(t, k) {
      assert Paired(t, u, t.heap[t.serverMap[k]].clientProxy);
    }
  }

  /** Whatever the iteration order, what is loaded is the saved table restricted to its replied peers. */
  lemma LoadAfterSave(t: Table, order: seq<Index>, now: Time)
    requires WeakInv(t) && AllRegistered(t) && Enumerates(order, t.serverMap)
    ensures Inv(Load(EMPTY, Saved(t, order), now)) && Restarted(t, Load(EMPTY, Saved(t, order), now))
  {
    var u := Load(EMPTY, Saved(t, order), now);
    SavedConsistent(t, order);
    ConsistentLoads(Saved(t, order), now);
    forall c: Index
      ensures c in u.clientMap <==> c in t.clientMap && Replied(t.heap[t.clientMap[c]])
      ensures c in u.clientMap ==> Paired(t, u, c)
    {
      SessionLoaded(t, order, now, c);
    }
    hide *;
    AllServerKeys(t, u);
  }

  lemma AllServerKeys(t: Table, u: Table)
    requires WeakInv(t) && AllRegistered(t) && Inv(u)
    requires forall c :: c in u.clientMap <==> c in t.clientMap && Replied(t.heap[t.clientMap[c]])
    requires forall c :: c in u.clientMap ==> Paired(t, u, c)
    ensures Restarted(t, u)
  {
    forall k: Index
      ensures k in u.serverMap <==> Current(t, k)
    {
      SameServerKeys(t, u, k);
    }
  }

  /** Whatever the file holds, a loaded peer counts as just active, and each of its cookie generators holds the key of
      its own end. */
  lemma LoadedDiffers(rs: seq<Record>, now: Time)
    ensures var u := Load(EMPTY, rs, now);
            forall id :: 0 <= id < |u.heap| ==>
              u.heap[id].lastActive == now && u.heap[id].clientCookie == u.heap[id].clientKey
              && u.heap[id].serverCookie == u.heap[id].serverKey
  {
    LoadedFrom(rs, now);
  }

  lemma SavedAt(t: Table, order: seq<Index>, i: nat)
    requires Inv(t) && Enumerates(order, t.serverMap) && i < |order|
    ensures var r := Saved(t, order)[i];
            && order[i] in t.serverMap && r == ToRecord(t.heap[t.serverMap[order[i]]]) && r.serverProxy == order[i]
            && r.clientProxy in t.clientMap && t.clientMap[r.clientProxy] == t.serverMap[order[i]]
            && Replied(t.heap[t.serverMap[order[i]]])
  {
  }
}

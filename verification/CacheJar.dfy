/** Saving and loading the table as the program does it (cache.go), field by field and peer by peer.

    The cache file is a sequence of records; `None` is a file that cannot be read. */
module CacheJar {
  import opened Bytes
  import opened Records
  import T = Tables
  import opened Wgit

  class WGITCachePeer {
    var clientOriginIndex: Index
    var clientProxyIndex: Index
    var clientPublicKey: PublicKey
    var clientDestination: Option<Addr>
    var clientSourceValidateLevel: int
    var serverOriginIndex: Index
    var serverProxyIndex: Index
    var serverPublicKey: PublicKey
    var serverDestination: Option<Addr>
    var serverSourceValidateLevel: int
    var obfuscateEnabled: bool

    function Value(): Record
      reads this
    {
      Record(clientOriginIndex, clientProxyIndex, clientPublicKey, clientDestination, clientSourceValidateLevel,
             serverOriginIndex, serverProxyIndex, serverPublicKey, serverDestination, serverSourceValidateLevel,
             obfuscateEnabled)
    }

    constructor Zero() {
      clientOriginIndex, clientProxyIndex, serverOriginIndex, serverProxyIndex := 0, 0, 0, 0;
    }

    /** A record as it was decoded from the file. */
    constructor Decoded(r: Record)
      ensures Value() == r
    {
      clientOriginIndex := r.clientOrigin;
      clientProxyIndex := r.clientProxy;
      clientPublicKey := r.clientKey;
      clientDestination := r.clientDest;
      clientSourceValidateLevel := r.clientLevel;
      serverOriginIndex := r.serverOrigin;
      serverProxyIndex := r.serverProxy;
      serverPublicKey := r.serverKey;
      serverDestination := r.serverDest;
      serverSourceValidateLevel := r.serverLevel;
      obfuscateEnabled := r.obfuscate;
    }

    /** Lines 31-49. */
    method FromWGITPeer(peer: Peer)
      modifies this
      ensures Value() == ToRecord(peer.State())
    {
      clientOriginIndex := peer.clientOriginIndex;
      clientProxyIndex := peer.clientProxyIndex;
      clientPublicKey := peer.clientPublicKey;
      clientDestination := Some(peer.clientDestination);
      clientSourceValidateLevel := peer.clientSourceValidateLevel;

      serverOriginIndex := peer.serverOriginIndex;
      serverProxyIndex := peer.serverProxyIndex;
      serverPublicKey := peer.serverPublicKey;
      serverDestination := Some(peer.serverDestination);
      serverSourceValidateLevel := peer.serverSourceValidateLevel;

      obfuscateEnabled := peer.obfuscateEnabled;
    }

    /** Lines 51-88: a new peer, or an error. */
    method WGITPeer(now: Time, ghost id: T.PeerId) returns (r: Option<Peer>)
      ensures r.Some? <==> FromRecord(Value(), now).Some?
      ensures r.Some? ==> fresh(r.value) && r.value.id == id && FromRecord(Value(), now) == Some(r.value.State())
    {
      var peer := new Peer.Zero(id);
      peer.clientOriginIndex := clientOriginIndex;
      peer.clientProxyIndex := clientProxyIndex;
      peer.clientPublicKey := clientPublicKey;
      if clientDestination.None? {
        return None;
      }
      peer.clientDestination := clientDestination.value;
      peer.clientSourceValidateLevel := clientSourceValidateLevel;

      peer.serverOriginIndex := serverOriginIndex;
      peer.serverProxyIndex := serverProxyIndex;
      peer.serverPublicKey := serverPublicKey;
      if serverDestination.None? {
        return None;
      }
      peer.serverDestination := serverDestination.value;
      peer.serverSourceValidateLevel := serverSourceValidateLevel;

      peer.clientCookieGenerator := peer.clientPublicKey;
      peer.serverCookieGenerator := peer.serverPublicKey;
      peer.lastActive := now;
      peer.obfuscateEnabled := obfuscateEnabled;
      r := Some(peer);
    }
  }

  class WGITCacheJar {
    const cacheFilePath: string
    const skipLoadCache: bool
    var file: Option<seq<Record>>

    static method Convert(table: WireGuardIndexTranslationTable, k: Index) returns (r: Record)
      requires table.Valid() && k in table.serverMap
      ensures r == ToRecord(table.view.heap[table.view.serverMap[k]])
    {
      var cp := new WGITCachePeer.Zero();
      cp.FromWGITPeer(table.serverMap[k]);
      r := cp.Value();
    }

    /** Lines 103-113: the records of all peers, in whatever order the map yields them. */
    method Collect(table: WireGuardIndexTranslationTable) returns (rs: seq<Record>)
      requires table.Valid()
      ensures exists order :: T.Enumerates(order, table.view.serverMap) && rs == Saved(table.view, order)
    {
      hide table.HeapOk, ToRecord;
      rs := [];
      ghost var order := [];
      var todo := table.serverMap.Keys;
      while todo != {}
        invariant T.Iterates(order, todo, table.serverMap)
        invariant rs == Saved(table.view, order)
        decreases todo
      {
        var k :| k in todo;
        var r := Convert(table, k);
        SavedNext(table.view, order, k);
        T.IteratesOn(order, todo, table.serverMap, k);
        rs := rs + [r];
        todo := todo - {k};
        order := order + [k];
      }
      T.IteratesAll(order, table.serverMap);
      assert T.Enumerates(order, table.view.serverMap);
    }

    /** Lines 98-134: nothing without a path; the old file stays if writing or renaming fails. */
    method SaveLocked(table: WireGuardIndexTranslationTable, writable: bool)
      requires table.Valid()
      modifies this`file
      ensures if cacheFilePath == "" || !writable then file == old(file)
              else exists order :: T.Enumerates(order, table.view.serverMap) && file == Some(Saved(table.view, order))
    {
      if cacheFilePath == "" {
        return;
      }
      var rs := Collect(table);
      if writable {
        file := Some(rs);
      }
    }

    /** Lines 158-166: a record that cannot be converted is skipped. */
    static method LoadPeer(table: WireGuardIndexTranslationTable, r: Record, now: Time)
      requires table.Valid()
      modifies table
      ensures table.Valid() && table.view == LoadOne(old(table.view), r, now)
      ensures fresh(set p | p in table.heap && p !in old(table.heap))
    {
      var cp := new WGITCachePeer.Decoded(r);
      var peer := cp.WGITPeer(now, |table.heap|);
      if peer.Some? {
        var p := peer.value;
        table.heap := table.heap + [p];
        table.view := LoadOne(table.view, r, now);
        table.clientMap := table.clientMap[p.clientProxyIndex := p];
        if p.serverProxyIndex != 0 {
          table.serverMap := table.serverMap[p.serverProxyIndex := p];
        }
      }
    }

    /** Lines 136-170: nothing without a path, when told to skip, or without a readable file. */
    method LoadLocked(table: WireGuardIndexTranslationTable, now: Time)
      requires table.Valid()
      modifies table
      ensures table.Valid()
      ensures table.view == if cacheFilePath == "" || skipLoadCache || file.None? then old(table.view)
                            else Load(old(table.view), file.value, now)
    {
      if cacheFilePath == "" || skipLoadCache || file.None? {
        return;
      }
      var rs := file.value;
      for i := 0 to |rs|
        invariant table.Valid() && table.view == Load(old(table.view), rs[..i], now)
      {
        LoadPeer(table, rs[i], now);
        assert rs[..i + 1][..i] == rs[..i];
      }
      assert rs[..|rs|] == rs;
    }
  }
}

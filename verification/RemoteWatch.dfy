/**
 * The remote watch registry. Each direction keeps the remote addresses of a local actor, and a
 * reverse index by the host of the address; an address's text determines its host.
 */
module RemoteWatch {
  import opened Basics

  type ByPid = map<string, set<string>>

  type ByHost = map<string, map<string, set<string>>>

  predicate InPid(m: ByPid, id: string, key: string) {
    id in m && key in m[id]
  }

  predicate InHost(m: ByHost, host: string, id: string, key: string) {
    host in m && id in m[host] && key in m[host][id]
  }

  // ---- the nested maps, one key at a time ----------------------------------------------

  ghost predicate NoEmptyPid(m: ByPid) {
    forall id :: id in m ==> m[id] != {}
  }

  ghost predicate NoEmptyHost(m: ByHost) {
    forall host :: host in m ==> m[host] != map[] && NoEmptyPid(m[host])
  }

  function AddPid(m: ByPid, id: string, key: string): (m': ByPid)
    ensures NoEmptyPid(m) ==> NoEmptyPid(m')
    ensures forall i, k :: InPid(m', i, k) <==> InPid(m, i, k) || (i == id && k == key)
  {
    m[id := (if id in m then m[id] else {}) + {key}]
  }

  /** Removes a key and the inner set with its last key. */
  function RemovePid(m: ByPid, id: string, key: string): (m': ByPid)
    ensures NoEmptyPid(m) ==> NoEmptyPid(m')
    ensures forall i, k :: InPid(m', i, k) <==> InPid(m, i, k) && !(i == id && k == key)
  {
    if id !in m then m
    else
      assert forall k :: k in m[id] ==> k in m[id] - {key} || k == key;
      if m[id] - {key} == {} then Without(m, id)
      else m[id := m[id] - {key}]
  }

  function AddHost(m: ByHost, host: string, id: string, key: string): (m': ByHost)
    ensures NoEmptyHost(m) ==> NoEmptyHost(m')
    ensures forall h, i, k :: InHost(m', h, i, k) <==> InHost(m, h, i, k) || (h == host && i == id && k == key)
  {
    var inner := AddPid(if host in m then m[host] else map[], id, key);
    assert id in inner;
    assert forall i, k :: InPid(inner, i, k) <==> InHost(m, host, i, k) || (i == id && k == key);
    m[host := inner]
  }

  function RemoveHost(m: ByHost, host: string, id: string, key: string): (m': ByHost)
    ensures NoEmptyHost(m) ==> NoEmptyHost(m')
    ensures forall h, i, k :: InHost(m', h, i, k) <==> InHost(m, h, i, k) && !(h == host && i == id && k == key)
  {
    if host !in m then m
    else
      var inner := RemovePid(m[host], id, key);
      assert forall i, k :: InPid(inner, i, k) <==> InHost(m, host, i, k) && !(i == id && k == key);
      if inner == map[] then Without(m, host) else m[host := inner]
  }

  /** Takes a set of keys from one id, with the inner set when nothing is left. */
  function TakeKeys(m: ByPid, id: string, keys: set<string>): (m': ByPid)
    ensures NoEmptyPid(m) ==> NoEmptyPid(m')
    ensures forall i, k :: InPid(m', i, k) <==> InPid(m, i, k) && !(i == id && k in keys)
  {
    if id !in m then m
    else
      assert forall k :: k in m[id] ==> k in m[id] - keys || k in keys;
      if m[id] - keys == {} then Without(m, id) else m[id := m[id] - keys]
  }

  // ---- one direction -------------------------------------------------------------------

  ghost predicate Agree(byPid: ByPid, byHost: ByHost, hostOf: string -> string) {
    && NoEmptyPid(byPid) && NoEmptyHost(byHost)
    && forall h, i, k :: InHost(byHost, h, i, k) <==> InPid(byPid, i, k) && hostOf(k) == h
  }

  /** The reverse index of one host. */
  lemma OnHost(byPid: ByPid, byHost: ByHost, hostOf: string -> string, host: string)
    requires Agree(byPid, byHost, hostOf)
    ensures forall i, k :: host in byHost && InPid(byHost[host], i, k) <==> InPid(byPid, i, k) && hostOf(k) == host
  {
    forall i, k ensures host in byHost && InPid(byHost[host], i, k) <==> InPid(byPid, i, k) && hostOf(k) == host {
      assert InHost(byHost, host, i, k) <==> InPid(byPid, i, k) && hostOf(k) == host;
    }
  }

  lemma WithoutHost(byHost: ByHost, host: string)
    requires NoEmptyHost(byHost)
    ensures NoEmptyHost(Without(byHost, host))
    ensures forall h, i, k :: InHost(Without(byHost, host), h, i, k) <==> InHost(byHost, h, i, k) && h != host
  {
  }

  class Side {
    const hostOf: string -> string
    var byPid: ByPid
    var byHost: ByHost

    /** The reverse index says the same as the addresses by actor, and no inner map is empty. */
    ghost predicate Valid()
      reads this
    {
      Agree(byPid, byHost, hostOf)
    }

    constructor (hostOf: string -> string)
      ensures Valid() && byPid == map[] && this.hostOf == hostOf
    {
      this.hostOf, byPid, byHost := hostOf, map[], map[];
    }

    method Add(id: string, key: Option<string>)
      requires Valid()
      modifies this
      ensures Valid()
      ensures forall i, k :: InPid(byPid, i, k) <==> old(InPid(byPid, i, k)) || (id != "" && i == id && key == Some(k))
    {
      if id == "" || key.None? { return; }
      byPid := AddPid(byPid, id, key.value);
      byHost := AddHost(byHost, hostOf(key.value), id, key.value);
    }

    method Remove(id: string, key: Option<string>)
      requires Valid()
      modifies this
      ensures Valid()
      ensures forall i, k :: InPid(byPid, i, k) <==> old(InPid(byPid, i, k)) && !(id != "" && i == id && key == Some(k))
    {
      if id == "" || key.None? { return; }
      byPid := RemovePid(byPid, id, key.value);
      byHost := RemoveHost(byHost, hostOf(key.value), id, key.value);
    }

    /** The addresses of one actor, each once. */
    method For(id: string) returns (keys: seq<string>)
      requires Valid()
      ensures NoDup(keys) && forall k :: k in keys <==> id != "" && InPid(byPid, id, k)
    {
      if id == "" || id !in byPid { return []; }
      keys := Listing(byPid[id]);
      assert forall k :: k in keys <==> k in Set(keys);
    }

    /** Forgets everything about one actor. */
    method DropPid(id: string)
      requires Valid()
      modifies this
      ensures Valid()
      ensures forall i, k :: InPid(byPid, i, k) <==> old(InPid(byPid, i, k)) && (id == "" || i != id)
    {
      if id == "" || id !in byPid { return; }
      byHost := Unindex(byPid[id], byHost, hostOf, id);
      byPid := Without(byPid, id);
    }

    /** Forgets everything on one host and returns it, each pair once. */
    method DropHost(host: string) returns (gone: seq<(string, string)>)
      requires Valid()
      modifies this
      ensures Valid()
      ensures forall i, k :: InPid(byPid, i, k) <==> old(InPid(byPid, i, k)) && (host == "" || hostOf(k) != host)
      ensures NoDup(gone)
      ensures forall i, k :: (i, k) in gone <==> host != "" && old(InPid(byPid, i, k)) && hostOf(k) == host
    {
      if host == "" { return []; }
      OnHost(byPid, byHost, hostOf, host);
      if host !in byHost { return []; }
      WithoutHost(byHost, host);
      byPid, gone := TakeHost(byPid, byHost[host], hostOf, host);
      byHost := Without(byHost, host);
    }
  }

  /** Both directions: who watches a local actor, and whom it watches. */
  class Registry {
    const watchers: Side
    const watchees: Side

    ghost predicate Valid()
      reads this, watchers, watchees
    {
      watchers != watchees && watchers.Valid() && watchees.Valid()
    }

    constructor (hostOf: string -> string)
      ensures Valid() && fresh(watchers) && fresh(watchees)
      ensures watchers.byPid == map[] && watchees.byPid == map[]
    {
      watchers := new Side(hostOf);
      watchees := new Side(hostOf);
    }

    /** A local actor is gone: so are its pairs, in both directions, and no others. */
    method DropPid(id: string)
      requires Valid()
      modifies watchers, watchees
      ensures Valid()
      ensures forall i, k :: InPid(watchers.byPid, i, k) <==> old(InPid(watchers.byPid, i, k)) && (id == "" || i != id)
      ensures forall i, k :: InPid(watchees.byPid, i, k) <==> old(InPid(watchees.byPid, i, k)) && (id == "" || i != id)
    {
      watchers.DropPid(id);
      watchees.DropPid(id);
    }

    /** A host is gone: its pairs come back in two groups. */
    method DropHost(host: string) returns (lost: seq<(string, string)>, bereaved: seq<(string, string)>)
      requires Valid()
      modifies watchers, watchees
      ensures Valid() && NoDup(lost) && NoDup(bereaved)
      ensures forall i, k :: (i, k) in lost <==>
                host != "" && old(InPid(watchers.byPid, i, k)) && watchers.hostOf(k) == host
      ensures forall i, k :: (i, k) in bereaved <==>
                host != "" && old(InPid(watchees.byPid, i, k)) && watchees.hostOf(k) == host
      ensures forall i, k :: InPid(watchers.byPid, i, k) <==> old(InPid(watchers.byPid, i, k)) && (i, k) !in lost
      ensures forall i, k :: InPid(watchees.byPid, i, k) <==> old(InPid(watchees.byPid, i, k)) && (i, k) !in bereaved
    {
      lost := watchers.DropHost(host);
      bereaved := watchees.DropHost(host);
    }
  }

  /** Takes an actor's addresses out of the reverse index. */
  method Unindex(keys: set<string>, byHost: ByHost, hostOf: string -> string, id: string) returns (m: ByHost)
    requires NoEmptyHost(byHost)
    ensures NoEmptyHost(m)
    ensures forall h, i, k ::
              InHost(m, h, i, k) <==> InHost(byHost, h, i, k) && !(i == id && k in keys && hostOf(k) == h)
  {
    m := byHost;
    var todo := keys;
    while todo != {}
      invariant todo <= keys && NoEmptyHost(m)
      invariant forall h, i, k :: InHost(m, h, i, k) <==>
                  InHost(byHost, h, i, k) && !(i == id && k in keys && k !in todo && hostOf(k) == h)
      decreases todo
    {
      var k :| k in todo;
      m := RemoveHost(m, hostOf(k), id, k);
      todo := todo - {k};
    }
  }

  /** Moves one actor's addresses into the result. */
  method TakeOne(id: string, keys: set<string>, gone: seq<(string, string)>) returns (gone': seq<(string, string)>)
    requires NoDup(gone) && forall k :: (id, k) !in gone
    ensures NoDup(gone') && forall i, k :: (i, k) in gone' <==> (i, k) in gone || (i == id && k in keys)
  {
    gone' := gone;
    var todo := keys;
    while todo != {}
      invariant todo <= keys && NoDup(gone')
      invariant forall i, k :: (i, k) in gone' <==> (i, k) in gone || (i == id && k in keys && k !in todo)
      decreases todo
    {
      var k :| k in todo;
      assert (id, k) !in gone';
      gone' := gone' + [(id, k)];
      todo := todo - {k};
    }
  }

  /** Moves all addresses on a host into the result. */
  method TakeHost(byPid: ByPid, onHost: ByPid, ghost hostOf: string -> string, ghost host: string)
    returns (m: ByPid, gone: seq<(string, string)>)
    requires NoEmptyPid(byPid) && forall i, k :: InPid(onHost, i, k) <==> InPid(byPid, i, k) && hostOf(k) == host
    ensures NoEmptyPid(m) && NoDup(gone)
    ensures forall i, k :: InPid(m, i, k) <==> InPid(byPid, i, k) && hostOf(k) != host
    ensures forall i, k :: (i, k) in gone <==> InPid(byPid, i, k) && hostOf(k) == host
  {
    m, gone := byPid, [];
    var todo := onHost.Keys;
    while todo != {}
      invariant todo <= onHost.Keys && NoEmptyPid(m) && NoDup(gone)
      invariant forall i, k :: InPid(m, i, k) <==> InPid(byPid, i, k) && !(i !in todo && InPid(onHost, i, k))
      invariant forall i, k :: (i, k) in gone <==> i !in todo && InPid(onHost, i, k)
      decreases todo
    {
      var id :| id in todo;
      gone := TakeOne(id, onHost[id], gone);
      m := TakeKeys(m, id, onHost[id]);
      todo := todo - {id};
    }
  }
}

/**
 The gateway's connection registry (server/cmd/gateway/gateway.go): four indexes kept in step by
 AddClient, RemoveClient and RefreshClient under one lock, and read by every fan-out.

 The book is the specification's view: which sockets are added and not yet removed, and under which keys
 each socket stands.  A refresh that commits after its socket was removed can leave the socket in the
 indexes; `Sound` holds all the same, and `Valid` says that no such stray is left, which is to say that
 each index is what a plain scan of the registered sockets would compute.
 */
module Gateway {
  import opened Common

  /** A connected socket.  `closed` records that its Send channel has been closed. */
  class Client {
    const user: string
    const device: string
    const key: string  // user:device, the key of the `clients` map
    var channels: seq<string>
    var servers: seq<string>
    var closed: bool

    constructor (user: string, device: string, channels: seq<string>, servers: seq<string>)
      ensures this.user == user && this.device == device && key == user + ":" + device && !closed
      ensures this.channels == channels && this.servers == servers
    {
      this.user, this.device, this.key := user, device, user + ":" + device;
      this.channels, this.servers, this.closed := channels, servers, false;
    }
  }

  /** What a refresh read from the store; the fetch may fail. */
  datatype Fetch = Fetched(channels: seq<string>, servers: seq<string>) | FetchFailed

  datatype Command =
    | Connect(client: Client)
    | Disconnect(client: Client)
    | Refresh(client: Client, fetch: Fetch)

  type Index = map<string, set<Client>>
  type Users = map<string, seq<Client>>

  /** The four maps guarded by the gateway's mutex. */
  datatype Indexes = Indexes(
    clients: map<string, Client>,  // user:device -> socket
    users: Users,                  // user -> sockets
    channels: Index,               // channel -> sockets
    servers: Index)                // server -> sockets

  /** The lists of one socket. */
  datatype Subs = Subs(channels: seq<string>, servers: seq<string>)

  function At(index: Index, key: string): set<Client> {
    if key in index then index[key] else {}
  }

  ghost predicate NoEmptyEntry(index: Index) {
    forall key :: key in index ==> index[key] != {}
  }

  lemma DistinctAppend<T>(s: seq<T>, x: T)
    requires Distinct(s) && x !in s
    ensures Distinct(s + [x])
  {
    forall i, j | 0 <= i < j < |s + [x]| ensures (s + [x])[i] != (s + [x])[j] {
      assert (s + [x])[i] == s[i];
    }
  }

  /** `r` is `index` with `client` added under (or removed from) exactly the keys in `keys`. */
  ghost predicate Changed(index: Index, r: Index, keys: set<string>, client: Client, add: bool) {
    forall key :: At(r, key) ==
      if key !in keys then At(index, key)
      else if add then At(index, key) + {client}
      else At(index, key) - {client}
  }

  function Insert(index: Index, key: string, client: Client): (r: Index)
    ensures NoEmptyEntry(index) ==> NoEmptyEntry(r)
    ensures Changed(index, r, {key}, client, true)
  {
    index[key := At(index, key) + {client}]
  }

  function Delete(index: Index, key: string, client: Client): (r: Index)
    ensures NoEmptyEntry(index) ==> NoEmptyEntry(r)
    ensures Changed(index, r, {key}, client, false)
  {
    var left := At(index, key) - {client};
    if left == {} then index - {key} else index[key := left]
  }

  /** Adds `client` under every key not in `skip`, creating entries on demand. */
  method Subscribe(index: Index, keys: seq<string>, skip: set<string>, client: Client) returns (r: Index)
    ensures NoEmptyEntry(index) ==> NoEmptyEntry(r)
    ensures Changed(index, r, SetOf(keys) - skip, client, true)
  {
    r := index;
    for i := 0 to |keys|
      invariant NoEmptyEntry(index) ==> NoEmptyEntry(r)
      invariant Changed(index, r, SetOf(keys[..i]) - skip, client, true)
    {
      assert SetOf(keys[..i + 1]) == SetOf(keys[..i]) + {keys[i]};
      if keys[i] !in skip {
        r := Insert(r, keys[i], client);
      }
    }
    assert keys[..|keys|] == keys;
  }

  /** Removes `client` from every key not in `skip`, dropping entries that become empty. */
  method Unsubscribe(index: Index, keys: seq<string>, skip: set<string>, client: Client) returns (r: Index)
    ensures NoEmptyEntry(index) ==> NoEmptyEntry(r)
    ensures Changed(index, r, SetOf(keys) - skip, client, false)
  {
    r := index;
    for i := 0 to |keys|
      invariant NoEmptyEntry(index) ==> NoEmptyEntry(r)
      invariant Changed(index, r, SetOf(keys[..i]) - skip, client, false)
    {
      assert SetOf(keys[..i + 1]) == SetOf(keys[..i]) + {keys[i]};
      if keys[i] !in skip {
        r := Delete(r, keys[i], client);
      }
    }
    assert keys[..|keys|] == keys;
  }

  /** Under which keys each socket stands. */
  type Holding = map<Client, set<string>>

  ghost function KeysOf(held: Holding, c: Client): set<string> {
    if c in held then held[c] else {}
  }

  /** The index holds each socket under exactly its keys; nothing is empty. */
  ghost predicate Exact(index: Index, held: Holding) {
    && NoEmptyEntry(index)
    && (forall key, c :: c in At(index, key) ==> key in KeysOf(held, c))
    && (forall c, key :: c in held && key in held[c] ==> c in At(index, key))
  }

  lemma ChangeKeepsExact(index: Index, held: Holding, r: Index, c: Client, keys: set<string>, add: bool)
    requires Exact(index, held) && NoEmptyEntry(r) && Changed(index, r, keys, c, add)
    ensures Exact(r, held[c := if add then KeysOf(held, c) + keys else KeysOf(held, c) - keys])
  {
    var held' := held[c := if add then KeysOf(held, c) + keys else KeysOf(held, c) - keys];
    forall key, d | d in At(r, key) ensures key in KeysOf(held', d) {
      assert d in At(index, key) ==> key in KeysOf(held, d);
    }
    forall d, key | d in held' && key in held'[d] ensures d in At(r, key) {
      assert key in KeysOf(held, d) || (d == c && key in keys);
      assert key in KeysOf(held, d) ==> d in At(index, key);
    }
  }

  /** The index side of adding a socket: it enters every key it names. */
  method Register(index: Index, ghost held: Holding, c: Client, keys: seq<string>) returns (r: Index)
    requires Exact(index, held)
    ensures Exact(r, held[c := KeysOf(held, c) + SetOf(keys)])
  {
    r := Subscribe(index, keys, {}, c);
    assert SetOf(keys) - {} == SetOf(keys);
    ChangeKeepsExact(index, held, r, c, SetOf(keys), true);
  }

  /** The index side of removing a socket, registered or not. */
  method Unregister(index: Index, ghost held: Holding, c: Client, keys: seq<string>) returns (r: Index)
    requires Exact(index, held)
    ensures Exact(r, held[c := KeysOf(held, c) - SetOf(keys)])
  {
    r := Unsubscribe(index, keys, {}, c);
    assert SetOf(keys) - {} == SetOf(keys);
    ChangeKeepsExact(index, held, r, c, SetOf(keys), false);
  }

  /** What a refresh makes of a socket's keys: those no longer named go, those newly named come. */
  ghost function Moved(keys: set<string>, was: seq<string>, now: seq<string>): set<string> {
    keys - (SetOf(was) - SetOf(now)) + (SetOf(now) - SetOf(was))
  }

  /** A registered socket ends under the new keys; a removed one under what it found that was new to it. */
  lemma MovedIs(keys: set<string>, was: seq<string>, now: seq<string>)
    requires keys <= SetOf(was)
    ensures Moved(keys, was, now) == keys * SetOf(now) + (SetOf(now) - SetOf(was)) <= SetOf(now)
    ensures keys == SetOf(was) ==> Moved(keys, was, now) == SetOf(now)
    ensures keys == {} ==> (Moved(keys, was, now) == {} <==> forall key :: key in now ==> key in was)
  {
    assert keys == {} ==> Moved(keys, was, now) == SetOf(now) - SetOf(was);
    if key :| key in now && key !in was {
      assert key in Moved(keys, was, now);
    }
  }

  /** The index side of a refresh: leave the keys no longer named, join the new ones. */
  method Reconcile(index: Index, ghost held: Holding, c: Client, was: seq<string>, keys: seq<string>)
    returns (r: Index)
    requires Exact(index, held)
    ensures Exact(r, held[c := Moved(KeysOf(held, c), was, keys)])
  {
    var newSet := set key | key in keys;
    var oldSet := set key | key in was;
    var mid := Unsubscribe(index, was, newSet, c);
    r := Subscribe(mid, keys, oldSet, c);
    ghost var gone, come := SetOf(was) - SetOf(keys), SetOf(keys) - SetOf(was);
    ghost var held1 := held[c := KeysOf(held, c) - gone];
    ChangeKeepsExact(index, held, mid, c, gone, false);
    ChangeKeepsExact(mid, held1, r, c, come, true);
    assert held1[c := KeysOf(held1, c) + come] == held[c := Moved(KeysOf(held, c), was, keys)];
  }

  /** The index is what a scan of the listed sockets would give. */
  ghost predicate Scanned(index: Index, lists: map<Client, seq<string>>) {
    forall key :: At(index, key) == set c | c in lists && key in lists[c]
  }

  /** That is so exactly when no other socket stands under a key. */
  lemma ScannedIff(index: Index, held: Holding, lists: map<Client, seq<string>>)
    requires Exact(index, held) && forall c :: c in lists ==> KeysOf(held, c) == SetOf(lists[c])
    ensures Scanned(index, lists) <==> forall c :: c in held && c !in lists ==> held[c] == {}
  {
    if forall c :: c in held && c !in lists ==> held[c] == {} {
      forall key ensures At(index, key) == set c | c in lists && key in lists[c] {
        forall c | c in At(index, key) ensures c in lists && key in lists[c] {
          assert key in KeysOf(held, c);
        }
        forall c | c in lists && key in lists[c] ensures c in At(index, key) {
          assert key in KeysOf(held, c);
        }
      }
    } else {
      var c :| c in held && c !in lists && held[c] != {};
      var key :| key in held[c];
      assert c in At(index, key);
    }
  }

  /** The user index holds each registered socket exactly once, and no empty slice. */
  ghost predicate UsersExact(users: Users, registered: set<Client>) {
    && (forall user :: user in users ==> users[user] != [] && Distinct(users[user]))
    && (forall user, c :: user in users && c in users[user] ==> c in registered && c.user == user)
    && (forall c :: c in registered ==> c.user in users && c in users[c.user])
  }

  lemma AddKeepsUsers(users: Users, registered: set<Client>, c: Client, r: Users)
    requires UsersExact(users, registered) && c !in registered
    requires r == users[c.user := (if c.user in users then users[c.user] else []) + [c]]
    ensures UsersExact(r, registered + {c})
  {
    var mine := if c.user in users then users[c.user] else [];
    DistinctAppend(mine, c);
    assert c in mine + [c];
    assert forall d :: d in mine + [c] <==> d in mine || d == c;
  }

  /** The in-place filter of the user's slice: drops `client`, keeps the order of the others. */
  method Without(sockets: seq<Client>, client: Client) returns (kept: seq<Client>)
    ensures forall c :: c in kept <==> c in sockets && c != client
    ensures Distinct(sockets) ==> Distinct(kept)
  {
    kept := [];
    for i := 0 to |sockets|
      invariant forall c :: c in kept <==> c in sockets[..i] && c != client
      invariant Distinct(sockets) ==> Distinct(kept)
    {
      assert sockets[..i + 1] == sockets[..i] + [sockets[i]];
      if sockets[i] != client {
        if Distinct(sockets) {
          assert sockets[i] !in sockets[..i];
          DistinctAppend(kept, sockets[i]);
        }
        kept := kept + [sockets[i]];
      }
    }
    assert sockets[..|sockets|] == sockets;
  }

  method RemoveUser(users: Users, ghost registered: set<Client>, c: Client) returns (r: Users)
    requires UsersExact(users, registered)
    ensures UsersExact(r, registered - {c})
  {
    r := users;
    if c.user in users && |users[c.user]| > 0 {
      var filtered := Without(users[c.user], c);
      if |filtered| == 0 {
        r := users - {c.user};
      } else {
        r := users[c.user := filtered];
      }
    }
  }

  /**
   Which sockets are registered, the lists of every socket that was seen, and under which keys each one
   stands.
   */
  datatype Book = Book(live: set<Client>, lists: map<Client, Subs>, channels: Holding, servers: Holding)

  ghost function Added(b: Book, c: Client, now: Subs): Book {
    Book(b.live + {c}, b.lists[c := now], b.channels[c := SetOf(now.channels)], b.servers[c := SetOf(now.servers)])
  }

  ghost function Removed(b: Book, c: Client, now: Subs): Book {
    Book(b.live - {c}, b.lists[c := now], b.channels[c := {}], b.servers[c := {}])
  }

  ghost function Refreshed(b: Book, c: Client, was: Subs, now: Subs): Book {
    Book(b.live, b.lists[c := now],
         b.channels[c := Moved(KeysOf(b.channels, c), was.channels, now.channels)],
         b.servers[c := Moved(KeysOf(b.servers, c), was.servers, now.servers)])
  }

  /** A socket stands only under keys of its lists, and under all of them while it is registered. */
  ghost predicate Placed(b: Book, c: Client, lists: Subs) {
    && KeysOf(b.channels, c) <= SetOf(lists.channels) && KeysOf(b.servers, c) <= SetOf(lists.servers)
    && (c in b.live ==> KeysOf(b.channels, c) == SetOf(lists.channels) && KeysOf(b.servers, c) == SetOf(lists.servers))
  }

  ghost predicate AllPlaced(b: Book) {
    && b.live <= b.lists.Keys && b.channels.Keys <= b.lists.Keys && b.servers.Keys <= b.lists.Keys
    && forall c :: c in b.lists ==> Placed(b, c, b.lists[c])
  }

  /** The lists are those the book has for the socket, if it has seen it. */
  ghost predicate Agrees(b: Book, c: Client, lists: Subs) {
    c in b.lists ==> b.lists[c] == lists
  }

  lemma AddedIsPlaced(b: Book, c: Client, now: Subs)
    requires AllPlaced(b)
    ensures AllPlaced(Added(b, c, now))
  {
    var r := Added(b, c, now);
    forall d | d in r.lists ensures Placed(r, d, r.lists[d]) {
      assert d != c ==> Placed(b, d, b.lists[d]);
    }
  }

  lemma RemovedIsPlaced(b: Book, c: Client, now: Subs)
    requires AllPlaced(b)
    ensures AllPlaced(Removed(b, c, now))
  {
    var r := Removed(b, c, now);
    forall d | d in r.lists ensures Placed(r, d, r.lists[d]) {
      assert d != c ==> Placed(b, d, b.lists[d]);
    }
  }

  lemma RefreshedIsPlaced(b: Book, c: Client, was: Subs, now: Subs)
    requires AllPlaced(b) && Agrees(b, c, was)
    ensures AllPlaced(Refreshed(b, c, was, now))
  {
    MovedIs(KeysOf(b.channels, c), was.channels, now.channels);
    MovedIs(KeysOf(b.servers, c), was.servers, now.servers);
  }

  ghost predicate ClientsOk(clients: map<string, Client>, registered: set<Client>) {
    forall key :: key in clients ==> clients[key] in registered && clients[key].key == key
  }

  /** The indexes are those of the book. */
  ghost predicate Fits(ix: Indexes, b: Book) {
    && UsersExact(ix.users, b.live) && ClientsOk(ix.clients, b.live)
    && Exact(ix.channels, b.channels) && Exact(ix.servers, b.servers)
    && AllPlaced(b)
  }

  ghost function ChannelLists(b: Book): map<Client, seq<string>>
    requires b.live <= b.lists.Keys
  {
    map c | c in b.live :: b.lists[c].channels
  }

  ghost function ServerLists(b: Book): map<Client, seq<string>>
    requires b.live <= b.lists.Keys
  {
    map c | c in b.live :: b.lists[c].servers
  }

  /** Both indexes are what a scan of the registered sockets would give. */
  ghost predicate Coherent(ix: Indexes, b: Book) {
    b.live <= b.lists.Keys && Scanned(ix.channels, ChannelLists(b)) && Scanned(ix.servers, ServerLists(b))
  }

  /** A socket that is not registered but still stands under a key. */
  ghost predicate Stray(b: Book, c: Client) {
    c !in b.live && (KeysOf(b.channels, c) != {} || KeysOf(b.servers, c) != {})
  }

  ghost predicate NoStrays(b: Book) {
    forall c :: c in b.lists ==> !Stray(b, c)
  }

  lemma ChannelsScannedIff(ix: Indexes, b: Book)
    requires Exact(ix.channels, b.channels) && AllPlaced(b)
    ensures Scanned(ix.channels, ChannelLists(b)) <==> forall c :: c in b.lists - b.live ==> KeysOf(b.channels, c) == {}
  {
    ScannedIff(ix.channels, b.channels, ChannelLists(b));
  }

  lemma ServersScannedIff(ix: Indexes, b: Book)
    requires Exact(ix.servers, b.servers) && AllPlaced(b)
    ensures Scanned(ix.servers, ServerLists(b)) <==> forall c :: c in b.lists - b.live ==> KeysOf(b.servers, c) == {}
  {
    ScannedIff(ix.servers, b.servers, ServerLists(b));
  }

  /** The indexes are exact for the registered sockets exactly when no other socket is left in them. */
  lemma CoherentIff(ix: Indexes, b: Book)
    requires Fits(ix, b)
    ensures Coherent(ix, b) <==> NoStrays(b)
  {
    ChannelsScannedIff(ix, b);
    ServersScannedIff(ix, b);
    assert forall c :: c in b.lists - b.live ==> c in b.lists;
    if NoStrays(b) {
      forall c | c in b.lists - b.live ensures KeysOf(b.channels, c) == {} && KeysOf(b.servers, c) == {} {
        assert !Stray(b, c);
      }
    }
  }

  /** The `clients` map names every registered socket.  Lost when two sockets share a key. */
  ghost predicate KeysExact(ix: Indexes, live: set<Client>) {
    forall c :: c in live ==> c.key in ix.clients && ix.clients[c.key] == c
  }

  function Sockets(ix: Indexes, user: string): seq<Client> {
    if user in ix.users then ix.users[user] else []
  }

  // ----- what each call does to the strays

  /** A socket that is not registered stands under the channel, or under the server. */
  ghost predicate Leaked(b: Book, c: Client, channel: string) {
    c !in b.live && channel in KeysOf(b.channels, c)
  }

  ghost predicate LeakedServer(b: Book, c: Client, server: string) {
    c !in b.live && server in KeysOf(b.servers, c)
  }

  lemma NothingLeaked(b: Book, key: string)
    requires NoStrays(b)
    ensures forall c :: c in b.lists ==> !Leaked(b, c, key) && !LeakedServer(b, c, key)
  {
    forall c | c in b.lists ensures !Leaked(b, c, key) && !LeakedServer(b, c, key) {
      assert !Stray(b, c);
    }
  }

  /** An index entry is a scan of the registered sockets, with the strays. */
  lemma ChannelEntry(ix: Indexes, b: Book, channel: string)
    requires Exact(ix.channels, b.channels) && AllPlaced(b)
    ensures At(ix.channels, channel) ==
      set c | c in b.lists && ((c in b.live && channel in b.lists[c].channels) || Leaked(b, c, channel))
  {
    forall c | c in At(ix.channels, channel) ensures c in b.lists && channel in KeysOf(b.channels, c) {
      assert channel in KeysOf(b.channels, c) && c in b.channels.Keys;
    }
    forall c | c in b.lists && channel in KeysOf(b.channels, c) ensures c in At(ix.channels, channel) {
      assert c in b.channels;
    }
    forall c | c in b.lists && c in b.live
      ensures channel in KeysOf(b.channels, c) <==> channel in b.lists[c].channels
    {
      assert Placed(b, c, b.lists[c]);
    }
  }

  lemma ServerEntry(ix: Indexes, b: Book, server: string)
    requires Exact(ix.servers, b.servers) && AllPlaced(b)
    ensures At(ix.servers, server) ==
      set c | c in b.lists && ((c in b.live && server in b.lists[c].servers) || LeakedServer(b, c, server))
  {
    forall c | c in At(ix.servers, server) ensures c in b.lists && server in KeysOf(b.servers, c) {
      assert server in KeysOf(b.servers, c) && c in b.servers.Keys;
    }
    forall c | c in b.lists && server in KeysOf(b.servers, c) ensures c in At(ix.servers, server) {
      assert c in b.servers;
    }
    forall c | c in b.lists && c in b.live ensures server in KeysOf(b.servers, c) <==> server in b.lists[c].servers {
      assert Placed(b, c, b.lists[c]);
    }
  }

  lemma AddedStrays(b: Book, c: Client, now: Subs)
    requires NoStrays(b)
    ensures NoStrays(Added(b, c, now)) && NoStrays(Removed(b, c, now))
  {
    forall d | d in b.lists && d != c ensures !Stray(Added(b, c, now), d) && !Stray(Removed(b, c, now), d) {
      assert !Stray(b, d);
    }
  }

  /** Nothing the socket did not name before. */
  ghost predicate NothingNew(was: Subs, now: Subs) {
    && (forall ch :: ch in now.channels ==> ch in was.channels)
    && (forall srv :: srv in now.servers ==> srv in was.servers)
  }

  lemma RefreshedStrays(b: Book, c: Client, was: Subs, now: Subs)
    requires AllPlaced(b) && Agrees(b, c, was) && NoStrays(b)
    ensures NoStrays(Refreshed(b, c, was, now)) <==> c in b.live || NothingNew(was, now)
  {
    var r := Refreshed(b, c, was, now);
    forall d | d != c ensures Stray(r, d) <==> Stray(b, d) {
    }
    if c !in b.live {
      assert KeysOf(b.channels, c) == {} && KeysOf(b.servers, c) == {} by {
        assert c in b.lists ==> !Stray(b, c);
      }
      MovedIs({}, was.channels, now.channels);
      MovedIs({}, was.servers, now.servers);
      assert Stray(r, c) <==> !NothingNew(was, now);
      assert c in r.lists;
    }
  }

  lemma KeysAfterAdd(ix: Indexes, live: set<Client>, r: Indexes, c: Client)
    requires ClientsOk(ix.clients, live) && c !in live && r.clients == ix.clients[c.key := c] && KeysExact(ix, live)
    ensures KeysExact(r, live + {c}) <==> c.key !in ix.clients
  {
    if c.key in ix.clients {
      var d := ix.clients[c.key];
      assert d in live + {c} && d != c;
    }
  }

  lemma KeysAfterRemove(ix: Indexes, live: set<Client>, r: Indexes, c: Client)
    requires ClientsOk(ix.clients, live) && c in live && r.clients == ix.clients - {c.key} && KeysExact(ix, live)
    ensures KeysExact(r, live - {c})
  {
  }

  method AddToIndexes(ix: Indexes, ghost b: Book, c: Client, lists: Subs) returns (r: Indexes)
    requires Fits(ix, b) && c !in b.live && Agrees(b, c, lists)
    ensures Fits(r, Added(b, c, lists))
    ensures r.clients == ix.clients[c.key := c]
  {
    var users := ix.users[c.user := Sockets(ix, c.user) + [c]];
    var channels := Register(ix.channels, b.channels, c, lists.channels);
    var servers := Register(ix.servers, b.servers, c, lists.servers);
    r := Indexes(ix.clients[c.key := c], users, channels, servers);

    AddKeepsUsers(ix.users, b.live, c, users);
    AddedIsPlaced(b, c, lists);
    assert KeysOf(b.channels, c) + SetOf(lists.channels) == SetOf(lists.channels);
    assert KeysOf(b.servers, c) + SetOf(lists.servers) == SetOf(lists.servers);
  }

  method RemoveFromIndexes(ix: Indexes, ghost b: Book, c: Client, lists: Subs) returns (r: Indexes)
    requires Fits(ix, b) && Agrees(b, c, lists)
    ensures Fits(r, Removed(b, c, lists))
    ensures r.clients == ix.clients - {c.key}
  {
    var users := RemoveUser(ix.users, b.live, c);
    var channels := Unregister(ix.channels, b.channels, c, lists.channels);
    var servers := Unregister(ix.servers, b.servers, c, lists.servers);
    r := Indexes(ix.clients - {c.key}, users, channels, servers);

    RemovedIsPlaced(b, c, lists);
    assert KeysOf(b.channels, c) - SetOf(lists.channels) == {};
    assert KeysOf(b.servers, c) - SetOf(lists.servers) == {};
  }

  method RefreshIndexes(ix: Indexes, ghost b: Book, c: Client, was: Subs, now: Subs) returns (r: Indexes)
    requires Fits(ix, b) && Agrees(b, c, was)
    ensures r.clients == ix.clients && r.users == ix.users
    ensures Fits(r, Refreshed(b, c, was, now))
  {
    var channels := Reconcile(ix.channels, b.channels, c, was.channels, now.channels);
    var servers := Reconcile(ix.servers, b.servers, c, was.servers, now.servers);
    r := ix.(channels := channels, servers := servers);

    RefreshedIsPlaced(b, c, was, now);
  }

  ghost predicate SharesServer(c: Client, d: Client)
    reads c, d
  {
    exists server :: server in c.servers && server in d.servers
  }

  /** Every server named by one of the sockets. */
  ghost function ServersOf(sockets: seq<Client>): (r: set<string>)
    reads sockets
  {
    if sockets == [] then {}
    else ServersOf(sockets[..|sockets| - 1]) + SetOf(sockets[|sockets| - 1].servers)
  }

  lemma {:induction false} ServersOfAre(sockets: seq<Client>, server: string)
    ensures server in ServersOf(sockets) <==> exists c :: c in sockets && server in c.servers
  {
    if sockets != [] {
      var init := sockets[..|sockets| - 1];
      var last := sockets[|sockets| - 1];
      assert sockets == init + [last];
      ServersOfAre(init, server);
    }
  }

  /** The servers of a user's sockets, collected by the two nested loops of the handlers. */
  method CollectServers(sockets: seq<Client>) returns (servers: set<string>)
    ensures servers == ServersOf(sockets)
  {
    servers := {};
    for i := 0 to |sockets|
      invariant servers == ServersOf(sockets[..i])
    {
      var names := sockets[i].servers;
      for j := 0 to |names|
        invariant servers == ServersOf(sockets[..i]) + SetOf(names[..j])
      {
        servers := servers + {names[j]};
      }
      assert names[..|names|] == names;
      assert sockets[..i + 1][..i] == sockets[..i];
    }
    assert sockets[..|sockets|] == sockets;
  }

  /** Sends once to each socket of a set, in any order. */
  method SendEach(targets: set<Client>) returns (sent: seq<Client>)
    ensures Distinct(sent) && forall c :: c in sent <==> c in targets
  {
    sent := [];
    var todo := targets;
    while todo != {}
      invariant Distinct(sent)
      invariant todo <= targets
      invariant forall c :: c in sent <==> c in targets - todo
      decreases todo
    {
      var c :| c in todo;
      DistinctAppend(sent, c);
      sent := sent + [c];
      todo := todo - {c};
    }
  }

  /** Sends to the sockets of several servers, skipping those already reached. */
  method SendToServers(index: Index, servers: set<string>) returns (sent: seq<Client>)
    ensures Distinct(sent)
    ensures forall c :: c in sent <==> exists srv :: srv in servers && c in At(index, srv)
  {
    sent := [];
    var seen: set<Client> := {};
    var left := servers;
    while left != {}
      invariant left <= servers && Distinct(sent)
      invariant forall c :: c in sent <==> c in seen
      invariant forall c :: c in seen <==> exists srv :: srv in servers - left && c in At(index, srv)
      decreases left
    {
      var srv :| srv in left;
      ghost var before := seen;
      var todo := At(index, srv);
      while todo != {}
        invariant todo <= At(index, srv) && Distinct(sent)
        invariant forall c :: c in sent <==> c in seen
        invariant seen == before + (At(index, srv) - todo)
        decreases todo
      {
        var c :| c in todo;
        todo := todo - {c};
        if c !in seen {
          DistinctAppend(sent, c);
          seen := seen + {c};
          sent := sent + [c];
        }
      }
      left := left - {srv};
    }
  }

  class Registry {
    var ix: Indexes
    ghost var book: Book

    ghost function Registered(): set<Client>
      reads this
    {
      book.live
    }

    /** The indexes are those of the book, and the sockets are as the book has them. */
    ghost predicate Sound()
      reads this, book.lists.Keys
    {
      && Fits(ix, book)
      && (forall c :: c in book.lists ==> book.lists[c] == Subs(c.channels, c.servers))
      && (forall c :: c in book.lists && c in book.live ==> !c.closed)
    }

    /** No socket but the registered ones is left in an index. */
    ghost predicate Valid()
      reads this, book.lists.Keys
    {
      Sound() && NoStrays(book)
    }

    /** Then, and only then, both indexes are what a scan of the registered sockets would give. */
    lemma ValidIsScanned()
      requires Sound()
      ensures Valid() <==> Coherent(ix, book)
    {
      CoherentIff(ix, book);
    }

    constructor ()
      ensures Valid() && KeysExact(ix, Registered()) && book == Book({}, map[], map[], map[])
    {
      ix := Indexes(map[], map[], map[], map[]);
      book := Book({}, map[], map[], map[]);
    }

    method AddClient(client: Client)
      requires Sound() && client !in Registered() && !client.closed
      modifies this
      ensures Sound() && book == Added(old(book), client, Subs(client.channels, client.servers))
      ensures old(Valid()) ==> Valid()
      ensures old(KeysExact(ix, Registered())) ==> (KeysExact(ix, Registered()) <==> client.key !in old(ix.clients))
    {
      ghost var before, was := book, ix;
      Attach(client);
      if NoStrays(before) {
        AddedStrays(before, client, Subs(client.channels, client.servers));
      }
      if KeysExact(was, before.live) {
        KeysAfterAdd(was, before.live, ix, client);
      }
    }

    /** What addClient does under the lock. */
    method Attach(client: Client)
      requires Sound() && client !in Registered() && !client.closed
      modifies this
      ensures Sound() && book == Added(old(book), client, Subs(client.channels, client.servers))
      ensures ix.clients == old(ix.clients)[client.key := client]
    {
      var lists := Subs(client.channels, client.servers);
      ix := AddToIndexes(ix, book, client, lists);
      book := Added(book, client, lists);
    }

    method RemoveClient(client: Client)
      requires Sound()
      modifies this, client`closed
      ensures Sound() && client.closed && book == Removed(old(book), client, Subs(client.channels, client.servers))
      ensures old(Valid()) ==> Valid()
      ensures old(KeysExact(ix, Registered())) && client in old(Registered()) ==> KeysExact(ix, Registered())
    {
      ghost var before, was := book, ix;
      Detach(client);
      if NoStrays(before) {
        AddedStrays(before, client, Subs(client.channels, client.servers));
      }
      if KeysExact(was, before.live) && client in before.live {
        KeysAfterRemove(was, before.live, ix, client);
      }
    }

    /** What removeClient does under the lock. */
    method Detach(client: Client)
      requires Sound()
      modifies this, client`closed
      ensures Sound() && client.closed && book == Removed(old(book), client, Subs(client.channels, client.servers))
      ensures ix.clients == old(ix.clients) - {client.key}
    {
      var lists := Subs(client.channels, client.servers);
      ix := RemoveFromIndexes(ix, book, client, lists);
      client.closed := true;
      book := Removed(book, client, lists);
    }

    /**
     Replaces the channel and server lists of a socket.  For a registered socket this keeps every
     index exact.  For a socket already removed (a fetch that lost the race with RemoveClient) it
     does so exactly when the fetch finds nothing the socket did not already have.
     */
    method RefreshClient(client: Client, fetch: Fetch)
      requires Sound()
      modifies this, client`channels, client`servers
      ensures Sound() && ix.clients == old(ix.clients) && ix.users == old(ix.users)
      ensures fetch.FetchFailed? ==>
        book == old(book) && client.channels == old(client.channels) && client.servers == old(client.servers)
      ensures fetch.Fetched? ==> client.channels == fetch.channels && client.servers == fetch.servers
      ensures
        var was := old(Subs(client.channels, client.servers));
        var now := Subs(client.channels, client.servers);
        && (fetch.Fetched? ==> book == Refreshed(old(book), client, was, now))
        && (old(Valid()) ==> (Valid() <==> client in Registered() || NothingNew(was, now)))
    {
      if fetch.FetchFailed? {
        return;
      }
      ghost var before, was := book, Subs(client.channels, client.servers);
      ApplyFetch(client, Subs(fetch.channels, fetch.servers));
      if NoStrays(before) {
        RefreshedStrays(before, client, was, Subs(client.channels, client.servers));
      }
    }

    /** What the refresh does under the lock. */
    method ApplyFetch(client: Client, now: Subs)
      requires Sound()
      modifies this, client`channels, client`servers
      ensures Sound() && ix.clients == old(ix.clients) && ix.users == old(ix.users)
      ensures Subs(client.channels, client.servers) == now
      ensures book == Refreshed(old(book), client, old(Subs(client.channels, client.servers)), now)
    {
      var was := Subs(client.channels, client.servers);
      ix := RefreshIndexes(ix, book, client, was, now);
      client.channels, client.servers := now.channels, now.servers;
      book := Refreshed(book, client, was, now);
    }

    /** Channel delivery: the sockets that stand under the channel, each once. */
    method DeliverChannel(channel: string) returns (sent: seq<Client>)
      requires Sound()
      ensures Distinct(sent)
      ensures forall c :: c in sent <==>
        (c in Registered() && channel in c.channels) || (c in book.lists && Leaked(book, c, channel))
      ensures Valid() ==> forall c :: c in sent <==> c in Registered() && channel in c.channels
      ensures Valid() ==> forall c :: c in sent ==> !c.closed
    {
      sent := SendEach(At(ix.channels, channel));
      ChannelEntry(ix, book, channel);
      if NoStrays(book) {
        NothingLeaked(book, channel);
      }
    }

    /** Server-wide broadcast: the sockets that stand under the server, each once. */
    method DeliverServer(server: string) returns (sent: seq<Client>)
      requires Sound()
      ensures Distinct(sent)
      ensures forall c :: c in sent <==>
        (c in Registered() && server in c.servers) || (c in book.lists && LeakedServer(book, c, server))
      ensures Valid() ==> forall c :: c in sent <==> c in Registered() && server in c.servers
      ensures Valid() ==> forall c :: c in sent ==> !c.closed
    {
      sent := SendEach(At(ix.servers, server));
      ServerEntry(ix, book, server);
      if NoStrays(book) {
        NothingLeaked(book, server);
      }
    }

    /** Channel lifecycle events: scoped to subscribers when a private channel is named. */
    method DeliverServerChannel(server: string, privateChannel: string) returns (sent: seq<Client>)
      requires Sound()
      ensures Distinct(sent)
      ensures Valid() ==> forall c :: c in sent ==> !c.closed
      ensures Valid() && privateChannel != "" ==>
        forall c :: c in sent <==> c in Registered() && privateChannel in c.channels
      ensures Valid() && privateChannel == "" ==>
        forall c :: c in sent <==> c in Registered() && server in c.servers
    {
      if privateChannel != "" {
        sent := DeliverChannel(privateChannel);
      } else {
        sent := DeliverServer(server);
      }
    }

    /** Read-state events: every socket of the user, once. */
    method DeliverUser(user: string) returns (sent: seq<Client>)
      requires Sound()
      ensures Distinct(sent) && forall c :: c in sent ==> !c.closed
      ensures forall c :: c in sent <==> c in Registered() && c.user == user
    {
      sent := Sockets(ix, user);
    }

    /** Presence and profile updates: everyone sharing a server with one of the user's sockets, once. */
    method DeliverSharedServers(user: string) returns (sent: seq<Client>)
      requires Sound()
      ensures Distinct(sent)
      ensures forall c :: c in Registered() ==>
        (c in sent <==> exists d :: d in Registered() && d.user == user && SharesServer(c, d))
      ensures Valid() ==> forall c :: c in sent ==> c in Registered() && !c.closed
    {
      sent := [];
      var sockets := Sockets(ix, user);
      if |sockets| == 0 {
        return;
      }
      var servers := CollectServers(sockets);
      sent := SendToServers(ix.servers, servers);
      forall c | c in Registered()
        ensures (exists srv :: srv in servers && c in At(ix.servers, srv)) <==>
                (exists d :: d in Registered() && d.user == user && SharesServer(c, d))
      {
        SharedServersAreScanned(sockets, servers, user, c);
      }
      if NoStrays(book) {
        forall c, srv | c in At(ix.servers, srv) ensures c in Registered() {
          ServerEntry(ix, book, srv);
          NothingLeaked(book, srv);
        }
      }
    }

    /** Going through the user's servers finds the same sockets as comparing every pair of sockets. */
    lemma SharedServersAreScanned(sockets: seq<Client>, servers: set<string>, user: string, c: Client)
      requires Sound() && sockets == Sockets(ix, user) && servers == ServersOf(sockets) && c in Registered()
      ensures (exists srv :: srv in servers && c in At(ix.servers, srv)) <==>
              (exists d :: d in Registered() && d.user == user && SharesServer(c, d))
    {
      if srv :| srv in servers && c in At(ix.servers, srv) {
        ServerEntry(ix, book, srv);
        ServersOfAre(sockets, srv);
        var d :| d in sockets && srv in d.servers;
        assert d in Registered() && d.user == user && SharesServer(c, d);
      }
      if d :| d in Registered() && d.user == user && SharesServer(c, d) {
        var srv :| srv in c.servers && srv in d.servers;
        assert d in sockets;
        ServersOfAre(sockets, srv);
        ServerEntry(ix, book, srv);
      }
    }

    /** The sockets closed at shutdown: those the `clients` map names. */
    method CloseAll() returns (closing: set<Client>)
      requires Sound()
      ensures closing <= Registered()
      ensures closing == Registered() <==> KeysExact(ix, Registered())
    {
      closing := ix.clients.Values;
      if KeysExact(ix, Registered()) {
        forall c | c in Registered() ensures c in ix.clients.Values {
          assert ix.clients[c.key] == c;
        }
      }
    }

    /** The registry and its sockets are as the outcome says. */
    ghost predicate Tracks(o: Outcome)
      reads this, book.lists.Keys
    {
      book == o.book && forall c :: c in book.lists ==> (c.closed <==> c in o.closed)
    }

    /** A socket is connected once: each accepted connection makes a new one. */
    method ReplayOne(command: Command, ghost o: Outcome)
      requires Sound() && Tracks(o) && command.client in book.lists
      modifies this, command.client
      ensures Sound() && Tracks(Then(o, command))
    {
      var c := command.client;
      match command {
        case Connect(_) =>
          if !c.closed && c !in Sockets(ix, c.user) {
            Attach(c);
          }
        case Disconnect(_) =>
          Detach(c);
        case Refresh(_, Fetched(channels, servers)) =>
          ApplyFetch(c, Subs(channels, servers));
        case Refresh(_, FetchFailed) =>
      }
    }

    method ReplayAll(script: seq<Command>, ghost start: Outcome)
      requires Sound() && Tracks(start) && Mentioned(script) <= book.lists.Keys
      modifies this, Mentioned(script)
      ensures Sound() && book == After(start, script).book
    {
      for i := 0 to |script|
        invariant Sound() && Tracks(After(start, script[..i])) && Mentioned(script) <= book.lists.Keys
      {
        assert script[..i + 1][..i] == script[..i];
        ReplayOne(script[i], After(start, script[..i]));
      }
      assert script[..|script|] == script;
    }

    /** Any sequence of connects, disconnects and refreshes, the refreshes of removed sockets included. */
    method Replay(script: seq<Command>)
      requires Sound()
      modifies this, Mentioned(script)
      ensures Sound() && book == After(old(Start(book, script)), script).book
      ensures Valid() <==> NoStrays(After(old(Start(book, script)), script).book)
    {
      ghost var start := Start(book, script);
      SeenFits(ix, book, Own(script));
      book := start.book;
      ReplayAll(script, start);
    }
  }

  // ----- what a script leaves

  ghost function Mentioned(script: seq<Command>): set<Client> {
    set i | 0 <= i < |script| :: script[i].client
  }

  ghost function Own(script: seq<Command>): map<Client, Subs>
    reads Mentioned(script)
  {
    map c | c in Mentioned(script) :: Subs(c.channels, c.servers)
  }

  /** The book with the lists of sockets it has not seen. */
  ghost function Seen(b: Book, own: map<Client, Subs>): Book {
    b.(lists := own + b.lists)
  }

  lemma SeenFits(ix: Indexes, b: Book, own: map<Client, Subs>)
    requires Fits(ix, b)
    ensures Fits(ix, Seen(b, own)) && (NoStrays(b) <==> NoStrays(Seen(b, own)))
  {
    var r := Seen(b, own);
    forall c | c in r.lists ensures Placed(r, c, r.lists[c]) && (Stray(r, c) <==> Stray(b, c)) {
      assert c in b.lists ==> Placed(b, c, b.lists[c]);
    }
    forall c | c in r.lists && c !in b.lists ensures !Stray(r, c) {
      assert c !in b.channels.Keys && c !in b.servers.Keys;
    }
  }

  /** The book and the closed sockets. */
  datatype Outcome = Outcome(book: Book, closed: set<Client>)

  ghost function Start(b: Book, script: seq<Command>): Outcome
    reads Mentioned(script), b.lists.Keys
  {
    var book := Seen(b, Own(script));
    Outcome(book, set c | c in book.lists && c.closed)
  }

  ghost function Then(o: Outcome, command: Command): Outcome {
    var c, b := command.client, o.book;
    if c !in b.lists then o
    else
      match command
      case Connect(_) => if c in o.closed || c in b.live then o else o.(book := Added(b, c, b.lists[c]))
      case Disconnect(_) => Outcome(Removed(b, c, b.lists[c]), o.closed + {c})
      case Refresh(_, Fetched(channels, servers)) =>
        o.(book := Refreshed(b, c, b.lists[c], Subs(channels, servers)))
      case Refresh(_, FetchFailed) => o
  }

  ghost function After(o: Outcome, script: seq<Command>): Outcome {
    if script == [] then o else Then(After(o, script[..|script| - 1]), script[|script| - 1])
  }

  /** A script neither forgets a socket it has seen nor breaks what holds of the book. */
  lemma {:induction false} AfterKeeps(o: Outcome, script: seq<Command>)
    requires AllPlaced(o.book) && o.book.live !! o.closed
    ensures AllPlaced(After(o, script).book) && After(o, script).book.live !! After(o, script).closed
    ensures After(o, script).book.lists.Keys == o.book.lists.Keys
  {
    if script != [] {
      var p, command := After(o, script[..|script| - 1]), script[|script| - 1];
      AfterKeeps(o, script[..|script| - 1]);
      ThenKeeps(p, command);
    }
  }

  lemma ThenKeeps(o: Outcome, command: Command)
    requires AllPlaced(o.book) && o.book.live !! o.closed
    ensures AllPlaced(Then(o, command).book) && Then(o, command).book.live !! Then(o, command).closed
    ensures Then(o, command).book.lists.Keys == o.book.lists.Keys
  {
    var c, b := command.client, o.book;
    if c in b.lists {
      match command
      case Connect(_) => AddedIsPlaced(b, c, b.lists[c]);
      case Disconnect(_) => RemovedIsPlaced(b, c, b.lists[c]);
      case Refresh(_, Fetched(channels, servers)) => RefreshedIsPlaced(b, c, b.lists[c], Subs(channels, servers));
      case Refresh(_, FetchFailed) =>
    }
  }

  /** A socket is live at the end exactly when it was, or connected while not closed, and was never disconnected. */
  lemma {:induction false} LiveAfter(o: Outcome, script: seq<Command>, c: Client)
    requires AllPlaced(o.book) && o.book.live !! o.closed && c in o.book.lists
    ensures
      var o' := After(o, script);
      && (c in o'.book.live <==>
            Disconnect(c) !in script && (c in o.book.live || (c !in o.closed && Connect(c) in script)))
      && (c in o'.closed <==> c in o.closed || Disconnect(c) in script)
  {
    if script != [] {
      var n := |script| - 1;
      assert script == script[..n] + [script[n]];
      LiveAfter(o, script[..n], c);
      AfterKeeps(o, script[..n]);
    }
  }

  // ----- when a script leaves strays

  datatype Kind = Channels | Servers

  function Named(lists: Subs, kind: Kind): seq<string> {
    if kind.Channels? then lists.channels else lists.servers
  }

  ghost function Under(b: Book, c: Client, kind: Kind): set<string> {
    KeysOf(if kind.Channels? then b.channels else b.servers, c)
  }

  /** The command is a successful refresh of the socket that names the key, or does not. */
  ghost predicate Names(command: Command, c: Client, kind: Kind, key: string) {
    && command.Refresh? && command.client == c && command.fetch.Fetched?
    && key in Named(Subs(command.fetch.channels, command.fetch.servers), kind)
  }

  ghost predicate Omits(command: Command, c: Client, kind: Kind, key: string) {
    && command.Refresh? && command.client == c && command.fetch.Fetched?
    && key !in Named(Subs(command.fetch.channels, command.fetch.servers), kind)
  }

  /** Refresh `j` finds a key that is new to the socket, and nothing after it takes the socket out again. */
  ghost predicate FindsAt(o: Outcome, script: seq<Command>, j: nat, c: Client, kind: Kind, key: string)
    requires j < |script|
  {
    && Names(script[j], c, kind, key)
    && c in After(o, script[..j]).book.lists && key !in Named(After(o, script[..j]).book.lists[c], kind)
    && forall k :: j < k < |script| ==> script[k] != Disconnect(c) && !Omits(script[k], c, kind, key)
  }

  ghost predicate FindsLate(o: Outcome, script: seq<Command>, c: Client, kind: Kind, key: string) {
    exists j :: 0 <= j < |script| && FindsAt(o, script, j, c, kind, key)
  }

  lemma FindsInPrefix(o: Outcome, script: seq<Command>, c: Client, kind: Kind, key: string)
    requires script != []
    ensures
      var n := |script| - 1;
      FindsLate(o, script, c, kind, key) <==>
        || FindsAt(o, script, n, c, kind, key)
        || (script[n] != Disconnect(c) && !Omits(script[n], c, kind, key) && FindsLate(o, script[..n], c, kind, key))
  {
    var n := |script| - 1;
    forall j | 0 <= j < n
      ensures FindsAt(o, script, j, c, kind, key) <==>
        script[n] != Disconnect(c) && !Omits(script[n], c, kind, key) && FindsAt(o, script[..n], j, c, kind, key)
    {
      assert script[..n][..j] == script[..j];
    }
  }

  /** What one command does to a socket that is not registered after it. */
  lemma ThenUnder(o: Outcome, command: Command, c: Client, kind: Kind, key: string)
    requires AllPlaced(o.book) && c in o.book.lists && c !in Then(o, command).book.live
    ensures key in Under(Then(o, command).book, c, kind) <==>
      || (Names(command, c, kind, key) && key !in Named(o.book.lists[c], kind))
      || (&& command != Disconnect(c) && !Omits(command, c, kind, key)
          && c !in o.book.live && key in Under(o.book, c, kind))
  {
    assert Placed(o.book, c, o.book.lists[c]);
  }

  /**
   After any script, a socket that is not registered stands under a key exactly when a refresh found the
   key new, every later refresh of the socket found it again, and no later removal cleared it.
   */
  lemma {:induction false} StrayIff(o: Outcome, script: seq<Command>, c: Client, kind: Kind, key: string)
    requires AllPlaced(o.book) && o.book.live !! o.closed && c in o.book.lists && !Stray(o.book, c)
    requires c !in After(o, script).book.live
    ensures key in Under(After(o, script).book, c, kind) <==> FindsLate(o, script, c, kind, key)
  {
    if script != [] {
      var n := |script| - 1;
      var p := After(o, script[..n]);
      AfterKeeps(o, script[..n]);
      FindsInPrefix(o, script, c, kind, key);
      ThenUnder(p, script[n], c, kind, key);
      if c !in p.book.live {
        StrayIff(o, script[..n], c, kind, key);
      }
    }
  }

  lemma UnderIsStray(b: Book, c: Client)
    requires c !in b.live
    ensures Stray(b, c) <==> exists kind, key :: key in Under(b, c, kind)
  {
    if key :| key in KeysOf(b.channels, c) {
      assert key in Under(b, c, Channels);
    } else if key :| key in KeysOf(b.servers, c) {
      assert key in Under(b, c, Servers);
    }
  }

  /** After a script from a valid registry the indexes are exact exactly when no socket it removed found news late. */
  lemma ExactAfterIff(o: Outcome, script: seq<Command>)
    requires AllPlaced(o.book) && o.book.live !! o.closed && NoStrays(o.book)
    ensures NoStrays(After(o, script).book) <==>
      forall c, kind, key ::
        c in o.book.lists && c !in After(o, script).book.live ==> !FindsLate(o, script, c, kind, key)
  {
    AfterKeeps(o, script);
    var b := After(o, script).book;
    forall c, kind, key | c in o.book.lists && c !in b.live
      ensures key in Under(b, c, kind) <==> FindsLate(o, script, c, kind, key)
    {
      StrayIff(o, script, c, kind, key);
    }
    forall c | c in o.book.lists && c !in b.live ensures Stray(b, c) <==> exists kind, key :: key in Under(b, c, kind) {
      UnderIsStray(b, c);
    }
    if forall c, kind, key :: c in o.book.lists && c !in b.live ==> !FindsLate(o, script, c, kind, key) {
      forall c | c in b.lists ensures !Stray(b, c) {
        assert c !in b.live ==> forall kind, key :: key !in Under(b, c, kind);
      }
    } else {
      var c, kind, key :| c in o.book.lists && c !in b.live && FindsLate(o, script, c, kind, key);
      assert key in Under(b, c, kind) && Stray(b, c);
    }
  }

  /** A refresh that finds a channel for a socket that is not registered and names none. */
  lemma LateFindLeaks(b: Book, c: Client, channel: string)
    requires c !in b.live && KeysOf(b.channels, c) == {}
    ensures
      var r := Refreshed(b, c, Subs([], []), Subs([channel], []));
      c in r.lists && Leaked(r, c, channel)
  {
    assert channel in Moved({}, [], [channel]);
  }

  /** A connection and its removal. */
  method ConnectAndRemove(user: string, device: string) returns (registry: Registry, c: Client)
    ensures fresh(registry) && fresh(c) && registry.Sound() && c.closed && c.channels == [] && c.servers == []
    ensures c !in registry.book.live && KeysOf(registry.book.channels, c) == {}
  {
    registry := new Registry();
    c := new Client(user, device, [], []);
    registry.Attach(c);
    registry.Detach(c);
  }

  /** A refresh that was under way commits after them. */
  method LateRefresh(user: string, device: string, channel: string) returns (registry: Registry, c: Client)
    ensures registry.Sound() && c.closed && c in registry.book.lists && Leaked(registry.book, c, channel)
  {
    registry, c := ConnectAndRemove(user, device);
    LateFindLeaks(registry.book, c, channel);
    registry.ApplyFetch(c, Subs([channel], []));
  }

  /** After it, the next event on the channel goes to a closed socket. */
  method SendAfterLateRefresh(user: string, device: string, channel: string) returns (sent: seq<Client>)
    ensures exists c :: c in sent && c.closed
  {
    var registry, c := LateRefresh(user, device, channel);
    sent := registry.DeliverChannel(channel);
    assert c in sent;
  }

  /** Some fetch for the socket succeeds. */
  ghost predicate Fetches(script: seq<Command>, c: Client) {
    exists i :: 0 <= i < |script| && script[i].Refresh? && script[i].client == c && script[i].fetch.Fetched?
  }

  /** Without a successful fetch a socket keeps its lists. */
  lemma {:induction false} ListsStay(o: Outcome, script: seq<Command>, c: Client, tail: seq<Command>)
    requires c in After(o, script).book.lists && !Fetches(tail, c)
    ensures c in After(o, script + tail).book.lists
    ensures After(o, script + tail).book.lists[c] == After(o, script).book.lists[c]
    decreases |tail|
  {
    if tail == [] {
      assert script + tail == script;
    } else {
      var n := |tail| - 1;
      var front := tail[..n];
      assert (script + tail)[..|script| + n] == script + front && (script + tail)[|script| + n] == tail[n];
      assert !Fetches(front, c) by {
        assert forall i :: 0 <= i < n ==> front[i] == tail[i];
      }
      ListsStay(o, script, c, front);
      assert !(tail[n].Refresh? && tail[n].client == c && tail[n].fetch.Fetched?);
    }
  }

  /** The lists of a socket are those of its last successful fetch. */
  lemma LastFetched(o: Outcome, script: seq<Command>, j: nat, c: Client, lists: Subs)
    requires j < |script| && script[j] == Refresh(c, Fetched(lists.channels, lists.servers))
    requires c in After(o, script[..j]).book.lists && !Fetches(script[j + 1..], c)
    ensures c in After(o, script).book.lists && After(o, script).book.lists[c] == lists
  {
    var front := script[..j + 1];
    assert front[..j] == script[..j] && front[j] == script[j];
    assert script == front + script[j + 1..];
    ListsStay(o, front, c, script[j + 1..]);
  }
}

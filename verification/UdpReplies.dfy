/** UDP replies: bounded tables of requests awaiting a reply, and the path of a datagram through an
    ingress Edge, a second Edge and its Connector, and back (tunnel.rs, mesh/forward.rs). */
module UdpReplies {
  import opened Wrappers

  type EdgeId = string

  datatype Destination = Client(addr: string) | ToPeer(ingress: EdgeId, requestId: nat)

  datatype Entry = Entry(destination: Destination, expectPeer: Option<EdgeId>, created: nat)

  // ----- The table -----

  datatype Table = Table(entries: map<nat, Entry>, maxEntries: nat, ttl: nat)

  predicate Unexpired(e: Entry, ttl: nat, now: nat) { now < e.created + ttl }

  function Purged(t: Table, now: nat): Table {
    t.(entries := map id | id in t.entries && Unexpired(t.entries[id], t.ttl, now) :: t.entries[id])
  }

  function Inserted(t: Table, id: nat, e: Entry, now: nat): (Table, bool) {
    var room := if |t.entries| >= t.maxEntries then Purged(t, now) else t;
    if |room.entries| >= t.maxEntries then (room, false)
    else (room.(entries := room.entries[id := e]), true)
  }

  function Without(t: Table, id: nat): Table { t.(entries := t.entries - {id}) }

  /** Claims the entry if it is there and the sender is accepted; an expired one is gone then. */
  function TakenIf(t: Table, id: nat, from: Option<EdgeId>, now: nat): (Table, Option<Entry>) {
    if id !in t.entries || (from.Some? && t.entries[id].expectPeer != from) then (t, None)
    else (Without(t, id), if Unexpired(t.entries[id], t.ttl, now) then Some(t.entries[id]) else None)
  }

  ghost predicate Bounded(t: Table) { |t.entries| <= t.maxEntries }

  lemma InsertIsBounded(t: Table, id: nat, e: Entry, now: nat)
    requires Bounded(t)
    ensures Bounded(Inserted(t, id, e, now).0) && Bounded(Purged(t, now)) && Bounded(Without(t, id))
    ensures Inserted(t, id, e, now).1 <==> |t.entries| < t.maxEntries || |Purged(t, now).entries| < t.maxEntries
  {
    Smaller(Purged(t, now).entries, t.entries);
    Smaller(Without(t, id).entries, t.entries);
    OneMore((if |t.entries| >= t.maxEntries then Purged(t, now) else t).entries, id, e);
  }

  lemma CountLive(t: Table, now: nat)
    ensures |Purged(t, now).entries| == |set k | k in t.entries && now < t.entries[k].created + t.ttl|
  {
    var live := set k | k in t.entries && now < t.entries[k].created + t.ttl;
    assert Purged(t, now).entries.Keys == live;
    assert |Purged(t, now).entries| == |Purged(t, now).entries.Keys|;
  }

  lemma OneMore(m: map<nat, Entry>, id: nat, e: Entry)
    ensures |m[id := e]| <= |m| + 1
  {
    assert m[id := e].Keys == m.Keys + {id};
    assert |m[id := e]| == |m.Keys + {id}|;
  }

  lemma Smaller(a: map<nat, Entry>, b: map<nat, Entry>)
    requires a.Keys <= b.Keys
    ensures |a| <= |b|
  {
    SubsetCount(a.Keys, b.Keys);
    assert |a| == |a.Keys| && |b| == |b.Keys|;
  }

  class UdpReplyTable {
    var entries: map<nat, Entry>
    const maxEntries: nat
    const ttl: nat

    ghost function Contents(): Table
      reads this
    {
      Table(entries, maxEntries, ttl)
    }

    constructor (maxEntries: nat, ttl: nat)
      ensures Contents() == Table(map[], maxEntries, ttl)
    {
      entries, this.maxEntries, this.ttl := map[], maxEntries, ttl;
    }

    method PurgeExpired(now: nat) returns (removed: int)
      modifies this
      ensures Contents() == Purged(old(Contents()), now)
      ensures forall id :: id in entries <==> id in old(entries) && now < old(entries)[id].created + ttl
      ensures forall id :: id in entries ==> entries[id] == old(entries)[id]
      ensures removed == |old(entries)| - |entries| >= 0
    {
      var before := |entries|;
      Smaller(Purged(Contents(), now).entries, entries);
      entries := map id | id in entries && Unexpired(entries[id], ttl, now) :: entries[id];
      removed := before - |entries|;
    }

    method Insert(id: nat, e: Entry, now: nat) returns (inserted: bool)
      requires Bounded(Contents())
      modifies this
      ensures Contents() == Inserted(old(Contents()), id, e, now).0 &&
              inserted == Inserted(old(Contents()), id, e, now).1
      ensures Bounded(Contents())
      ensures var live := set k | k in old(entries) && now < old(entries)[k].created + ttl;
              inserted <==> |old(entries)| < maxEntries || |live| < maxEntries
      ensures inserted ==> id in entries && entries[id] == e
      ensures forall k :: k in entries && (k != id || !inserted) ==> k in old(entries) && entries[k] == old(entries)[k]
      ensures forall k :: k in old(entries) && now < old(entries)[k].created + ttl ==> k in entries
    {
      InsertIsBounded(Contents(), id, e, now);
      CountLive(Contents(), now);
      if |entries| >= maxEntries {
        var _ := PurgeExpired(now);
        if |entries| >= maxEntries {
          return false;
        }
      }
      entries := entries[id := e];
      return true;
    }

    method TakeIf(id: nat, from: Option<EdgeId>, now: nat) returns (claimed: Option<Entry>)
      modifies this
      ensures Contents() == TakenIf(old(Contents()), id, from, now).0 &&
              claimed == TakenIf(old(Contents()), id, from, now).1
      ensures var accepted := id in old(entries) && (from.None? || old(entries)[id].expectPeer == from);
              && entries == (if accepted then old(entries) - {id} else old(entries))
              && (claimed.Some? <==> accepted && now < old(entries)[id].created + ttl)
              && (claimed.Some? ==> claimed.value == old(entries)[id])
    {
      if id !in entries || (from.Some? && entries[id].expectPeer != from) {
        return None;
      }
      var e := entries[id];
      entries := entries - {id};
      return if Unexpired(e, ttl, now) then Some(e) else None;
    }
  }

  // ----- The path of datagrams -----

  /** A table of an Edge: the one for requests forwarded to peers, or one Connector's. */
  datatype Slot = Mesh | Connector(connection: nat)

  /** Datagrams ever sent; any of them may arrive late, repeatedly or not at all. `tag` is the client
      datagram a message carries or answers. The sender of a mesh message is authenticated. */
  datatype Message =
    | MeshRequest(sender: EdgeId, to: EdgeId, id: nat, tag: nat)
    | ToConnector(edge: EdgeId, connection: nat, id: nat, tag: nat)
    | FromConnector(edge: EdgeId, connection: nat, id: nat, tag: nat)
    | MeshReply(sender: EdgeId, ingress: EdgeId, to: EdgeId, id: nat, tag: nat)

  /** What an id was given out for. */
  datatype Origin = Origin(tag: nat, slot: Slot, destination: Destination, expectPeer: Option<EdgeId>)

  datatype Delivery = Delivery(edge: EdgeId, id: nat, client: string, tag: nat, via: Option<EdgeId>)

  /** `clients` maps each client datagram to its sender; `bad` are Edges that send what they like. */
  datatype Sys = Sys(
    now: nat, maxEntries: nat, ttl: nat, bad: set<EdgeId>,
    nextId: map<EdgeId, nat>, tables: map<(EdgeId, Slot), Table>, net: set<Message>,
    clients: map<nat, string>, origins: map<(EdgeId, nat), Origin>, delivered: seq<Delivery>)

  datatype Event =
    | SendViaPeer(edge: EdgeId, tag: nat, client: string, peer: EdgeId, sent: bool)
    | SendLocal(edge: EdgeId, tag: nat, client: string, connection: nat, sent: bool)
    | ReceiveRequest(m: Message, connection: nat, sent: bool)
    | ConnectorReplies(m: Message)
    | ReceiveFromConnector(m: Message, sent: bool)
    | ReceiveReply(m: Message)
    | Forge(m: Message)
    | Purge(edge: EdgeId, slot: Slot)
    | Tick(now: nat)

  function TableOf(s: Sys, edge: EdgeId, slot: Slot): Table {
    if (edge, slot) in s.tables then s.tables[(edge, slot)] else Table(map[], s.maxEntries, s.ttl)
  }

  function IdOf(s: Sys, edge: EdgeId): nat { if edge in s.nextId then s.nextId[edge] else 1 }

  predicate Enabled(s: Sys, e: Event) {
    match e
    case SendViaPeer(edge, tag, _, _, _) => edge !in s.bad && tag !in s.clients
    case SendLocal(edge, tag, _, _, _) => edge !in s.bad && tag !in s.clients
    case ReceiveRequest(m, _, _) => m in s.net && m.MeshRequest? && m.to !in s.bad
    case ConnectorReplies(m) => m in s.net && m.ToConnector?
    case ReceiveFromConnector(m, _) => m in s.net && m.FromConnector? && m.edge !in s.bad
    case ReceiveReply(m) => m in s.net && m.MeshReply? && m.to !in s.bad
    case Forge(m) => (m.MeshRequest? || m.MeshReply?) && m.sender in s.bad
    case Purge(_, _) => true
    case Tick(now) => s.now <= now
  }

  /** Give out an id, remember where its reply goes, and send; a refused or failed send leaves no
      entry behind. */
  function Issue(s: Sys, edge: EdgeId, o: Origin, m: Message, sent: bool): Sys {
    var id := IdOf(s, edge);
    var (t, ok) := Inserted(TableOf(s, edge, o.slot), id, Entry(o.destination, o.expectPeer, s.now), s.now);
    s.(nextId := s.nextId[edge := id + 1],
       tables := s.tables[(edge, o.slot) := if ok && !sent then Without(t, id) else t],
       origins := s.origins[(edge, id) := o],
       net := if ok && sent then s.net + {m} else s.net)
  }

  function Next(s: Sys, e: Event): Sys
    requires Enabled(s, e)
  {
    match e
    case SendViaPeer(edge, tag, client, peer, sent) =>
      Issue(s.(clients := s.clients[tag := client]), edge, Origin(tag, Mesh, Client(client), Some(peer)),
            MeshRequest(edge, peer, IdOf(s, edge), tag), sent)
    case SendLocal(edge, tag, client, connection, sent) =>
      Issue(s.(clients := s.clients[tag := client]), edge, Origin(tag, Connector(connection), Client(client), None),
            ToConnector(edge, connection, IdOf(s, edge), tag), sent)
    case ReceiveRequest(m, connection, sent) =>
      Issue(s, m.to, Origin(m.tag, Connector(connection), ToPeer(m.sender, m.id), None),
            ToConnector(m.to, connection, IdOf(s, m.to), m.tag), sent)
    case ConnectorReplies(m) => s.(net := s.net + {FromConnector(m.edge, m.connection, m.id, m.tag)})
    case ReceiveFromConnector(m, sent) =>
      var (t, claimed) := TakenIf(TableOf(s, m.edge, Connector(m.connection)), m.id, None, s.now);
      var s' := s.(tables := s.tables[(m.edge, Connector(m.connection)) := t]);
      (match claimed
       case None => s'
       case Some(entry) =>
         match entry.destination
         case Client(addr) => s'.(delivered := s.delivered + [Delivery(m.edge, m.id, addr, m.tag, None)])
         case ToPeer(ingress, id) =>
           if sent then s'.(net := s.net + {MeshReply(m.edge, ingress, ingress, id, m.tag)}) else s')
    case ReceiveReply(m) =>
      if m.ingress != m.to then s
      else
        var (t, claimed) := TakenIf(TableOf(s, m.to, Mesh), m.id, Some(m.sender), s.now);
        var s' := s.(tables := s.tables[(m.to, Mesh) := t]);
        if claimed.Some? && claimed.value.destination.Client?
        then
          var d := Delivery(m.to, m.id, claimed.value.destination.addr, m.tag, Some(m.sender));
          s'.(delivered := s.delivered + [d])
        else s'
    case Forge(m) => s.(net := s.net + {m})
    case Purge(edge, slot) => s.(tables := s.tables[(edge, slot) := Purged(TableOf(s, edge, slot), s.now)])
    case Tick(now) => s.(now := now)
  }

  // ----- What every step keeps -----

  /** An id's origin is what it was issued for. */
  ghost predicate OriginInv(s: Sys, edge: EdgeId, id: nat)
    requires (edge, id) in s.origins
  {
    var o := s.origins[(edge, id)];
    && id < IdOf(s, edge)
    && (o.destination.Client? ==> Lookup(s.clients, o.tag) == Some(o.destination.addr))
    && (o.destination.ToPeer? ==> o.expectPeer.None? && o.slot.Connector?
                                  && MeshRequest(o.destination.ingress, edge, o.destination.requestId, o.tag) in s.net)
    && (o.expectPeer.Some? <==> o.slot.Mesh?)
  }

  ghost predicate EntryInv(s: Sys, edge: EdgeId, slot: Slot, id: nat, e: Entry) {
    && (edge, id) in s.origins
    && s.origins[(edge, id)].slot == slot && s.origins[(edge, id)].destination == e.destination
    && s.origins[(edge, id)].expectPeer == e.expectPeer
  }

  ghost predicate MessageInv(s: Sys, m: Message) {
    match m
    case MeshRequest(sender, to, id, tag) =>
      sender !in s.bad ==>
        && (sender, id) in s.origins && s.origins[(sender, id)].tag == tag
        && s.origins[(sender, id)].expectPeer == Some(to)
    case ToConnector(edge, _, id, tag) => (edge, id) in s.origins && s.origins[(edge, id)].tag == tag
    case FromConnector(edge, _, id, tag) => (edge, id) in s.origins && s.origins[(edge, id)].tag == tag
    case MeshReply(sender, ingress, to, id, tag) =>
      sender !in s.bad ==> ingress == to && MeshRequest(to, sender, id, tag) in s.net
  }

  /** Answers a request of that very client, through the peer it was sent to, and its entry is gone. */
  ghost predicate DeliveryInv(s: Sys, d: Delivery) {
    && d.edge !in s.bad && (d.edge, d.id) in s.origins
    && var o := s.origins[(d.edge, d.id)];
       && o.destination == Client(d.client) && o.expectPeer == d.via
       && Lookup(s.clients, o.tag) == Some(d.client)
       && (d.via.None? || d.via.value !in s.bad ==> d.tag == o.tag)
       && d.id !in TableOf(s, d.edge, o.slot).entries
  }

  ghost predicate TableInv(s: Sys, edge: EdgeId, slot: Slot, t: Table) {
    && Bounded(t) && t.maxEntries == s.maxEntries && t.ttl == s.ttl
    && forall id :: id in t.entries ==> EntryInv(s, edge, slot, id, t.entries[id])
  }

  ghost predicate TablesInv(s: Sys) {
    forall k :: k in s.tables ==> TableInv(s, k.0, k.1, s.tables[k])
  }

  ghost predicate DeliveredOnce(s: Sys) {
    forall i, j :: 0 <= i < j < |s.delivered| ==>
      (s.delivered[i].edge, s.delivered[i].id) != (s.delivered[j].edge, s.delivered[j].id)
  }

  ghost predicate Inv(s: Sys) {
    && (forall k :: k in s.origins ==> OriginInv(s, k.0, k.1))
    && TablesInv(s)
    && (forall m :: m in s.net ==> MessageInv(s, m))
    && (forall d :: d in s.delivered ==> DeliveryInv(s, d))
    && DeliveredOnce(s)
  }

  /** Origins are only added, so what a table or a message says about them stays true. */
  ghost predicate Extends(s: Sys, s': Sys) {
    && s'.maxEntries == s.maxEntries && s'.ttl == s.ttl && s'.bad == s.bad && s.net <= s'.net
    && (forall k :: k in s.origins ==> k in s'.origins && s'.origins[k] == s.origins[k])
  }

  lemma TableCarriesOver(s: Sys, s': Sys, edge: EdgeId, slot: Slot, t: Table)
    requires TableInv(s, edge, slot, t) && Extends(s, s')
    ensures TableInv(s', edge, slot, t)
  {
    forall id | id in t.entries ensures EntryInv(s', edge, slot, id, t.entries[id]) {
      assert EntryInv(s, edge, slot, id, t.entries[id]);
    }
  }

  lemma TableOfInv(s: Sys, edge: EdgeId, slot: Slot)
    requires TablesInv(s)
    ensures TableInv(s, edge, slot, TableOf(s, edge, slot))
  {
  }

  lemma SmallerTable(s: Sys, edge: EdgeId, slot: Slot, t: Table, t': Table)
    requires TableInv(s, edge, slot, t) && Within(t', t)
    ensures TableInv(s, edge, slot, t')
  {
    Smaller(t'.entries, t.entries);
    forall id | id in t'.entries ensures EntryInv(s, edge, slot, id, t'.entries[id]) {
      assert EntryInv(s, edge, slot, id, t.entries[id]);
    }
  }

  lemma InsertedTable(s: Sys, edge: EdgeId, slot: Slot, t: Table, id: nat, entry: Entry)
    requires TableInv(s, edge, slot, t) && EntryInv(s, edge, slot, id, entry)
    ensures TableInv(s, edge, slot, Inserted(t, id, entry, s.now).0)
  {
    InsertIsBounded(t, id, entry, s.now);
    var t' := Inserted(t, id, entry, s.now).0;
    forall i | i in t'.entries ensures EntryInv(s, edge, slot, i, t'.entries[i]) {
      if i != id {
        assert EntryInv(s, edge, slot, i, t.entries[i]);
      }
    }
  }

  lemma IssueExtends(s: Sys, edge: EdgeId, o: Origin, m: Message, sent: bool)
    requires forall k :: k in s.origins ==> OriginInv(s, k.0, k.1)
    ensures Extends(s, Issue(s, edge, o, m, sent))
  {
    forall k | k in s.origins ensures k != (edge, IdOf(s, edge)) { assert OriginInv(s, k.0, k.1); }
  }

  lemma IssuedTable(s: Sys, edge: EdgeId, o: Origin, m: Message, sent: bool)
    requires TablesInv(s) && Extends(s, Issue(s, edge, o, m, sent))
    ensures var s' := Issue(s, edge, o, m, sent); TableInv(s', edge, o.slot, s'.tables[(edge, o.slot)])
  {
    var s' := Issue(s, edge, o, m, sent);
    var id, table := IdOf(s, edge), TableOf(s, edge, o.slot);
    var entry := Entry(o.destination, o.expectPeer, s.now);
    var t := Inserted(table, id, entry, s.now).0;
    TableOfInv(s, edge, o.slot);
    TableCarriesOver(s, s', edge, o.slot, table);
    InsertedTable(s', edge, o.slot, table, id, entry);
    SmallerTable(s', edge, o.slot, t, Without(t, id));
  }

  lemma IssueTables(s: Sys, edge: EdgeId, o: Origin, m: Message, sent: bool)
    requires TablesInv(s) && Extends(s, Issue(s, edge, o, m, sent))
    ensures TablesInv(Issue(s, edge, o, m, sent))
  {
    var s' := Issue(s, edge, o, m, sent);
    IssuedTable(s, edge, o, m, sent);
    forall k | k in s'.tables ensures TableInv(s', k.0, k.1, s'.tables[k]) {
      if k != (edge, o.slot) { TableCarriesOver(s, s', k.0, k.1, s.tables[k]); }
    }
  }

  predicate Carries(m: Message, edge: EdgeId, id: nat, o: Origin) {
    match m
    case MeshRequest(sender, to, i, tag) => sender == edge && i == id && tag == o.tag && o.expectPeer == Some(to)
    case ToConnector(e, _, i, tag) => e == edge && i == id && tag == o.tag
    case _ => false
  }

  lemma IssueKeeps(s: Sys, edge: EdgeId, o: Origin, m: Message, sent: bool)
    requires Inv(s) && edge !in s.bad
    requires o.destination.Client? ==> Lookup(s.clients, o.tag) == Some(o.destination.addr)
    requires o.destination.ToPeer? ==>
               && o.expectPeer.None? && o.slot.Connector?
               && MeshRequest(o.destination.ingress, edge, o.destination.requestId, o.tag) in s.net
    requires o.expectPeer.Some? <==> o.slot.Mesh?
    requires Carries(m, edge, IdOf(s, edge), o)
    ensures Inv(Issue(s, edge, o, m, sent))
  {
    var s' := Issue(s, edge, o, m, sent);
    IssueExtends(s, edge, o, m, sent);
    IssueTables(s, edge, o, m, sent);
    forall k | k in s'.origins ensures OriginInv(s', k.0, k.1) {
      if k in s.origins { assert OriginInv(s, k.0, k.1); }
    }
    MessagesCarryOver(s, s', m);
    IssueDeliveries(s, edge, o, m, sent);
  }

  lemma MessagesCarryOver(s: Sys, s': Sys, m: Message)
    requires Extends(s, s') && s'.net <= s.net + {m} && (forall x :: x in s.net ==> MessageInv(s, x))
    requires m in s'.net ==> MessageInv(s', m)
    ensures forall x :: x in s'.net ==> MessageInv(s', x)
  {
    forall x | x in s'.net ensures MessageInv(s', x) {
      if x in s.net { assert MessageInv(s, x); }
    }
  }

  /** Giving out a new id brings no other id into a table. */
  lemma IssueAddsOnlyItsId(s: Sys, edge: EdgeId, o: Origin, m: Message, sent: bool, e: EdgeId, slot: Slot, id: nat)
    requires id !in TableOf(s, e, slot).entries && (e, id) != (edge, IdOf(s, edge))
    ensures id !in TableOf(Issue(s, edge, o, m, sent), e, slot).entries
  {
    if (e, slot) == (edge, o.slot) {
      var t := Inserted(TableOf(s, e, slot), IdOf(s, edge), Entry(o.destination, o.expectPeer, s.now), s.now).0;
      assert id !in t.entries;
    }
  }

  lemma IssueDeliveries(s: Sys, edge: EdgeId, o: Origin, m: Message, sent: bool)
    requires Inv(s) && Extends(s, Issue(s, edge, o, m, sent))
    ensures var s' := Issue(s, edge, o, m, sent); forall d :: d in s'.delivered ==> DeliveryInv(s', d)
  {
    var s' := Issue(s, edge, o, m, sent);
    forall d | d in s'.delivered ensures DeliveryInv(s', d) {
      IssueDelivery(s, edge, o, m, sent, d);
    }
  }

  lemma IssueDelivery(s: Sys, edge: EdgeId, o: Origin, m: Message, sent: bool, d: Delivery)
    requires DeliveryInv(s, d) && OriginInv(s, d.edge, d.id) && Extends(s, Issue(s, edge, o, m, sent))
    ensures DeliveryInv(Issue(s, edge, o, m, sent), d)
  {
    IssueAddsOnlyItsId(s, edge, o, m, sent, d.edge, s.origins[(d.edge, d.id)].slot, d.id);
  }

  lemma OriginsCarryOver(s: Sys, s': Sys)
    requires (forall k :: k in s.origins ==> OriginInv(s, k.0, k.1)) && s'.origins == s.origins &&
             s'.nextId == s.nextId && s.net <= s'.net
    requires forall tag :: tag in s.clients ==> tag in s'.clients && s'.clients[tag] == s.clients[tag]
    ensures forall k :: k in s'.origins ==> OriginInv(s', k.0, k.1)
  {
    forall k | k in s'.origins ensures OriginInv(s', k.0, k.1) { assert OriginInv(s, k.0, k.1); }
  }

  lemma TablesCarryOver(s: Sys, s': Sys)
    requires TablesInv(s) && Extends(s, s') && s'.tables == s.tables
    ensures TablesInv(s')
  {
    forall k | k in s'.tables ensures TableInv(s', k.0, k.1, s'.tables[k]) {
      TableCarriesOver(s, s', k.0, k.1, s.tables[k]);
    }
  }

  ghost predicate Within(t: Table, u: Table) {
    t.maxEntries == u.maxEntries && t.ttl == u.ttl &&
    forall id :: id in t.entries ==> id in u.entries && t.entries[id] == u.entries[id]
  }

  lemma ShrinkTables(s: Sys, edge: EdgeId, slot: Slot, t: Table)
    requires TablesInv(s) && Within(t, TableOf(s, edge, slot))
    ensures TablesInv(s.(tables := s.tables[(edge, slot) := t]))
  {
    var s' := s.(tables := s.tables[(edge, slot) := t]);
    TableOfInv(s, edge, slot);
    SmallerTable(s, edge, slot, TableOf(s, edge, slot), t);
    forall k | k in s'.tables ensures TableInv(s', k.0, k.1, s'.tables[k]) {
      TableCarriesOver(s, s', k.0, k.1, s'.tables[k]);
    }
  }

  /** A table loses entries and nothing else changes. */
  lemma ShrinkKeeps(s: Sys, edge: EdgeId, slot: Slot, t: Table)
    requires Inv(s) && Within(t, TableOf(s, edge, slot))
    ensures Inv(s.(tables := s.tables[(edge, slot) := t]))
  {
    var s' := s.(tables := s.tables[(edge, slot) := t]);
    OriginsCarryOver(s, s');
    ShrinkTables(s, edge, slot, t);
    forall m | m in s'.net ensures MessageInv(s', m) { assert MessageInv(s, m); }
    forall d | d in s'.delivered ensures DeliveryInv(s', d) { ShrinkDelivery(s, edge, slot, t, d); }
  }

  lemma ShrinkDelivery(s: Sys, edge: EdgeId, slot: Slot, t: Table, d: Delivery)
    requires DeliveryInv(s, d) && Within(t, TableOf(s, edge, slot))
    ensures DeliveryInv(s.(tables := s.tables[(edge, slot) := t]), d)
  {
  }

  lemma SendKeeps(s: Sys, m: Message)
    requires Inv(s) && MessageInv(s.(net := s.net + {m}), m)
    ensures Inv(s.(net := s.net + {m}))
  {
    var s' := s.(net := s.net + {m});
    OriginsCarryOver(s, s');
    TablesCarryOver(s, s');
    MessagesCarryOver(s, s', m);
    forall d | d in s'.delivered ensures DeliveryInv(s', d) { assert DeliveryInv(s, d); }
  }

  lemma NewTagKeeps(s: Sys, tag: nat, client: string)
    requires Inv(s) && tag !in s.clients
    ensures Inv(s.(clients := s.clients[tag := client]))
  {
    var s' := s.(clients := s.clients[tag := client]);
    OriginsCarryOver(s, s');
    TablesCarryOver(s, s');
    forall m | m in s'.net ensures MessageInv(s', m) { assert MessageInv(s, m); }
    forall d | d in s'.delivered ensures DeliveryInv(s', d) { assert DeliveryInv(s, d); }
  }

  lemma DeliverKeeps(s: Sys, d: Delivery)
    requires Inv(s) && DeliveryInv(s, d)
    requires forall x :: x in s.delivered ==> (x.edge, x.id) != (d.edge, d.id)
    ensures Inv(s.(delivered := s.delivered + [d]))
  {
    var s' := s.(delivered := s.delivered + [d]);
    OriginsCarryOver(s, s');
    TablesCarryOver(s, s');
    forall m | m in s'.net ensures MessageInv(s', m) { assert MessageInv(s, m); }
    forall x | x in s'.delivered ensures DeliveryInv(s', x) {
      if x in s.delivered { assert DeliveryInv(s, x); }
    }
  }

  /** A claimed entry agrees with its origin, and nothing was delivered for it before. */
  ghost predicate ClaimedFirst(s: Sys, edge: EdgeId, slot: Slot, id: nat, e: Entry) {
    EntryInv(s, edge, slot, id, e) && forall d :: d in s.delivered ==> (d.edge, d.id) != (edge, id)
  }

  lemma EntryIsUnclaimed(s: Sys, edge: EdgeId, slot: Slot, id: nat)
    requires Inv(s) && id in TableOf(s, edge, slot).entries
    ensures ClaimedFirst(s, edge, slot, id, TableOf(s, edge, slot).entries[id])
  {
    TableOfInv(s, edge, slot);
    assert EntryInv(s, edge, slot, id, TableOf(s, edge, slot).entries[id]);
    forall d | d in s.delivered ensures (d.edge, d.id) != (edge, id) {
      assert DeliveryInv(s, d);
    }
  }

  lemma ClaimKeeps(s: Sys, edge: EdgeId, slot: Slot, id: nat, sender: Option<EdgeId>)
    requires Inv(s)
    ensures var (t, claimed) := TakenIf(TableOf(s, edge, slot), id, sender, s.now);
            && Inv(s.(tables := s.tables[(edge, slot) := t]))
            && (claimed.Some? ==>
                  && id !in t.entries
                  && ClaimedFirst(s, edge, slot, id, claimed.value)
                  && (sender.Some? ==> claimed.value.expectPeer == sender))
  {
    ShrinkKeeps(s, edge, slot, TakenIf(TableOf(s, edge, slot), id, sender, s.now).0);
    if id in TableOf(s, edge, slot).entries {
      EntryIsUnclaimed(s, edge, slot, id);
    }
  }

  lemma ConnectorReplyKeeps(s: Sys, m: Message, sent: bool)
    requires Inv(s) && Enabled(s, ReceiveFromConnector(m, sent))
    ensures Inv(Next(s, ReceiveFromConnector(m, sent)))
  {
    var slot := Connector(m.connection);
    var (t, claimed) := TakenIf(TableOf(s, m.edge, slot), m.id, None, s.now);
    var s1 := s.(tables := s.tables[(m.edge, slot) := t]);
    ClaimKeeps(s, m.edge, slot, m.id, None);
    if claimed.Some? {
      assert MessageInv(s, m) && OriginInv(s, m.edge, m.id);
      match claimed.value.destination {
        case Client(addr) => DeliverKeeps(s1, Delivery(m.edge, m.id, addr, m.tag, None));
        case ToPeer(ingress, id) =>
          if sent { SendKeeps(s1, MeshReply(m.edge, ingress, ingress, id, m.tag)); }
      }
    }
  }

  lemma MeshReplyKeeps(s: Sys, m: Message)
    requires Inv(s) && Enabled(s, ReceiveReply(m)) && m.ingress == m.to
    ensures Inv(Next(s, ReceiveReply(m)))
  {
    var (t, claimed) := TakenIf(TableOf(s, m.to, Mesh), m.id, Some(m.sender), s.now);
    var s1 := s.(tables := s.tables[(m.to, Mesh) := t]);
    ClaimKeeps(s, m.to, Mesh, m.id, Some(m.sender));
    if claimed.Some? && claimed.value.destination.Client? {
      assert OriginInv(s, m.to, m.id) && MessageInv(s, m);
      if m.sender !in s.bad {
        assert MessageInv(s, MeshRequest(m.to, m.sender, m.id, m.tag));
      }
      DeliverKeeps(s1, Delivery(m.to, m.id, claimed.value.destination.addr, m.tag, Some(m.sender)));
    }
  }

  lemma StepKeepsInv(s: Sys, e: Event)
    requires Inv(s) && Enabled(s, e)
    ensures Inv(Next(s, e))
  {
    match e {
      case SendViaPeer(edge, tag, client, peer, sent) =>
        NewTagKeeps(s, tag, client);
        IssueKeeps(s.(clients := s.clients[tag := client]), edge, Origin(tag, Mesh, Client(client), Some(peer)),
                   MeshRequest(edge, peer, IdOf(s, edge), tag), sent);
      case SendLocal(edge, tag, client, connection, sent) =>
        NewTagKeeps(s, tag, client);
        IssueKeeps(s.(clients := s.clients[tag := client]), edge,
                   Origin(tag, Connector(connection), Client(client), None),
                   ToConnector(edge, connection, IdOf(s, edge), tag), sent);
      case ReceiveRequest(m, connection, sent) =>
        IssueKeeps(s, m.to, Origin(m.tag, Connector(connection), ToPeer(m.sender, m.id), None),
                   ToConnector(m.to, connection, IdOf(s, m.to), m.tag), sent);
      case ConnectorReplies(m) =>
        assert MessageInv(s, m);
        SendKeeps(s, FromConnector(m.edge, m.connection, m.id, m.tag));
      case ReceiveFromConnector(m, sent) => ConnectorReplyKeeps(s, m, sent);
      case ReceiveReply(m) => if m.ingress == m.to { MeshReplyKeeps(s, m); }
      case Forge(m) => SendKeeps(s, m);
      case Purge(edge, slot) =>
        TableOfInv(s, edge, slot);
        ShrinkKeeps(s, edge, slot, Purged(TableOf(s, edge, slot), s.now));
      case Tick(now) => TimeKeeps(s, now);
    }
  }

  lemma TimeKeeps(s: Sys, now: nat)
    requires Inv(s)
    ensures Inv(s.(now := now))
  {
    var s' := s.(now := now);
    OriginsCarryOver(s, s');
    TablesCarryOver(s, s');
    forall m | m in s'.net ensures MessageInv(s', m) { assert MessageInv(s, m); }
    forall d | d in s'.delivered ensures DeliveryInv(s', d) { assert DeliveryInv(s, d); }
  }

  ghost predicate Allowed(s: Sys, es: seq<Event>)
    decreases |es|
  {
    es == [] || (Enabled(s, es[0]) && Allowed(Next(s, es[0]), es[1..]))
  }

  function Run(s: Sys, es: seq<Event>): Sys
    requires Allowed(s, es)
    decreases |es|
  {
    if es == [] then s else Run(Next(s, es[0]), es[1..])
  }

  /** Over every run of any number of Edges, with reordered, repeated and lost datagrams, Connectors
      that answer as often as they like, and Edges that forge replies: each datagram delivered to a
      client belongs to a request of that client that was forwarded to the peer it came through, it
      answers that very request unless that peer itself forged it, no request is answered twice, and
      no table exceeds its maximum. */
  lemma {:induction false} RepliesReachTheirClient(s: Sys, es: seq<Event>)
    requires Inv(s) && Allowed(s, es)
    ensures var s' := Run(s, es);
            && (forall d :: d in s'.delivered ==> DeliveryInv(s', d))
            && DeliveredOnce(s')
            && (forall k :: k in s'.tables ==> |s'.tables[k].entries| <= s'.maxEntries)
    decreases |es|
  {
    if es == [] {
      forall k | k in s.tables ensures |s.tables[k].entries| <= s.maxEntries {
        assert TableInv(s, k.0, k.1, s.tables[k]);
      }
    } else {
      StepKeepsInv(s, es[0]);
      RepliesReachTheirClient(Next(s, es[0]), es[1..]);
    }
  }

  // ----- A reply in time is delivered -----

  /** The table holds this entry under an id that was given out. */
  ghost predicate Awaits(s: Sys, edge: EdgeId, slot: Slot, id: nat, e: Entry) {
    var t := TableOf(s, edge, slot);
    id in t.entries && t.entries[id] == e && t.ttl == s.ttl && id < IdOf(s, edge)
  }

  /** The event claims the entry: a message with its id from the peer it is expected from, or from the
      Connector it was sent to. */
  predicate Claims(e: Event, edge: EdgeId, slot: Slot, id: nat, entry: Entry) {
    match e
    case ReceiveReply(m) =>
      m.MeshReply? && slot.Mesh? && m.to == m.ingress == edge && m.id == id && entry.expectPeer == Some(m.sender)
    case ReceiveFromConnector(m, _) =>
      m.FromConnector? && slot == Connector(m.connection) && m.edge == edge && m.id == id
    case _ => false
  }

  lemma InsertLeavesOthers(t: Table, id: nat, e: Entry, now: nat, other: nat)
    requires other in t.entries && other != id && now < t.entries[other].created + t.ttl
    ensures var t' := Inserted(t, id, e, now).0;
            && other in t'.entries && t'.entries[other] == t.entries[other] && t'.ttl == t.ttl
            && other in Without(t', id).entries && Without(t', id).entries[other] == t.entries[other]
  {
  }

  lemma IssueLeavesOthers(s: Sys, sender: EdgeId, o: Origin, m: Message, sent: bool, edge: EdgeId, slot: Slot, id: nat,
      entry: Entry)
    requires Awaits(s, edge, slot, id, entry) && s.now < entry.created + s.ttl
    ensures Awaits(Issue(s, sender, o, m, sent), edge, slot, id, entry)
  {
    if (sender, o.slot) == (edge, slot) {
      InsertLeavesOthers(TableOf(s, edge, slot), IdOf(s, sender), Entry(o.destination, o.expectPeer, s.now), s.now, id);
    }
  }

  lemma ShrinkLeavesEntry(s: Sys, s': Sys, at: EdgeId, where_: Slot, t: Table, edge: EdgeId, slot: Slot, id: nat,
      entry: Entry)
    requires Awaits(s, edge, slot, id, entry) && Within(t, TableOf(s, at, where_))
    requires (at, where_) == (edge, slot) ==> id in t.entries
    requires s'.tables == s.tables[(at, where_) := t] && s'.nextId == s.nextId && s'.ttl == s.ttl
    ensures Awaits(s', edge, slot, id, entry)
  {
  }

  lemma StepLeavesEntry(s: Sys, e: Event, edge: EdgeId, slot: Slot, id: nat, entry: Entry)
    requires Enabled(s, e) && Awaits(s, edge, slot, id, entry) && !Claims(e, edge, slot, id, entry)
    requires s.now < entry.created + s.ttl
    ensures Awaits(Next(s, e), edge, slot, id, entry)
  {
    match e {
      case SendViaPeer(sender, tag, client, peer, sent) =>
        IssueLeavesOthers(s.(clients := s.clients[tag := client]), sender,
                          Origin(tag, Mesh, Client(client), Some(peer)),
                          MeshRequest(sender, peer, IdOf(s, sender), tag), sent, edge, slot, id, entry);
      case SendLocal(sender, tag, client, connection, sent) =>
        IssueLeavesOthers(s.(clients := s.clients[tag := client]), sender,
                          Origin(tag, Connector(connection), Client(client), None),
                          ToConnector(sender, connection, IdOf(s, sender), tag), sent, edge, slot, id, entry);
      case ReceiveRequest(m, connection, sent) =>
        IssueLeavesOthers(s, m.to, Origin(m.tag, Connector(connection), ToPeer(m.sender, m.id), None),
                          ToConnector(m.to, connection, IdOf(s, m.to), m.tag), sent, edge, slot, id, entry);
      case ReceiveFromConnector(m, _) =>
        var t := TakenIf(TableOf(s, m.edge, Connector(m.connection)), m.id, None, s.now).0;
        ShrinkLeavesEntry(s, Next(s, e), m.edge, Connector(m.connection), t, edge, slot, id, entry);
      case ReceiveReply(m) =>
        if m.ingress == m.to {
          var t := TakenIf(TableOf(s, m.to, Mesh), m.id, Some(m.sender), s.now).0;
          ShrinkLeavesEntry(s, Next(s, e), m.to, Mesh, t, edge, slot, id, entry);
        }
      case _ =>
    }
  }

  lemma {:induction false} TimeAdvances(s: Sys, es: seq<Event>)
    requires Allowed(s, es)
    ensures s.now <= Run(s, es).now && Run(s, es).ttl == s.ttl && Run(s, es).bad == s.bad
    decreases |es|
  {
    if es != [] {
      TimeAdvances(Next(s, es[0]), es[1..]);
    }
  }

  /** An entry is kept through every run that ends before it expires and does not claim it: other requests,
      other claims, replies from other peers and purges leave it alone. */
  lemma {:induction false} EntryIsKept(s: Sys, es: seq<Event>, edge: EdgeId, slot: Slot, id: nat, entry: Entry)
    requires Allowed(s, es) && Awaits(s, edge, slot, id, entry)
    requires forall e :: e in es ==> !Claims(e, edge, slot, id, entry)
    requires Run(s, es).now < entry.created + s.ttl
    ensures Awaits(Run(s, es), edge, slot, id, entry)
    decreases |es|
  {
    if es != [] {
      TimeAdvances(s, es);
      TimeAdvances(Next(s, es[0]), es[1..]);
      StepLeavesEntry(s, es[0], edge, slot, id, entry);
      EntryIsKept(Next(s, es[0]), es[1..], edge, slot, id, entry);
    }
  }

  /** There is a free place in the table, or one that an expired entry takes up. */
  ghost predicate HasRoom(s: Sys, edge: EdgeId, slot: Slot) {
    var t := TableOf(s, edge, slot);
    |t.entries| < s.maxEntries || exists k :: k in t.entries && t.entries[k].created + s.ttl <= s.now
  }

  lemma RoomIsEnough(s: Sys, edge: EdgeId, slot: Slot, id: nat, e: Entry)
    requires TablesInv(s) && HasRoom(s, edge, slot) && s.maxEntries > 0
    ensures var (t, ok) := Inserted(TableOf(s, edge, slot), id, e, s.now);
            ok && id in t.entries && t.entries[id] == e && t.ttl == s.ttl
  {
    TableOfInv(s, edge, slot);
    var t := TableOf(s, edge, slot);
    if |t.entries| >= s.maxEntries {
      var k :| k in t.entries && t.entries[k].created + s.ttl <= s.now;
      var rest := Without(t, k).entries;
      assert t.entries.Keys == rest.Keys + {k};
      Smaller(Purged(t, s.now).entries, rest);
      assert |t.entries| == |t.entries.Keys| && |rest| == |rest.Keys|;
    }
  }

  lemma IssueAwaits(s: Sys, edge: EdgeId, o: Origin, m: Message)
    requires TablesInv(s) && HasRoom(s, edge, o.slot) && s.maxEntries > 0
    ensures var s' := Issue(s, edge, o, m, true);
            && Awaits(s', edge, o.slot, IdOf(s, edge), Entry(o.destination, o.expectPeer, s.now))
            && m in s'.net && s'.now == s.now && s'.ttl == s.ttl
  {
    RoomIsEnough(s, edge, o.slot, IdOf(s, edge), Entry(o.destination, o.expectPeer, s.now));
  }

  /** An id of an entry that is gone does not come back, and an entry never gets younger. */
  ghost predicate CreatedAt(s: Sys, edge: EdgeId, slot: Slot, id: nat, created: nat) {
    var t := TableOf(s, edge, slot);
    id < IdOf(s, edge) && t.ttl == s.ttl && (id in t.entries ==> t.entries[id].created == created)
  }

  lemma InsertAddsOnlyItsId(t: Table, id: nat, e: Entry, now: nat)
    ensures var t' := Inserted(t, id, e, now).0;
            && t'.ttl == t.ttl
            && forall k :: k in t'.entries && k != id ==> k in t.entries && t'.entries[k] == t.entries[k]
  {
  }

  lemma IssueKeepsAge(s: Sys, sender: EdgeId, o: Origin, m: Message, sent: bool, edge: EdgeId, slot: Slot, id: nat,
      created: nat)
    requires CreatedAt(s, edge, slot, id, created)
    ensures CreatedAt(Issue(s, sender, o, m, sent), edge, slot, id, created)
  {
    if (sender, o.slot) == (edge, slot) {
      InsertAddsOnlyItsId(TableOf(s, edge, slot), IdOf(s, sender), Entry(o.destination, o.expectPeer, s.now), s.now);
    }
  }

  lemma ShrinkKeepsAge(s: Sys, s': Sys, at: EdgeId, where_: Slot, t: Table, edge: EdgeId, slot: Slot, id: nat,
      created: nat)
    requires CreatedAt(s, edge, slot, id, created) && Within(t, TableOf(s, at, where_))
    requires s'.tables == s.tables[(at, where_) := t] && s'.nextId == s.nextId && s'.ttl == s.ttl
    ensures CreatedAt(s', edge, slot, id, created)
  {
  }

  lemma StepKeepsAge(s: Sys, e: Event, edge: EdgeId, slot: Slot, id: nat, created: nat)
    requires Enabled(s, e) && CreatedAt(s, edge, slot, id, created)
    ensures CreatedAt(Next(s, e), edge, slot, id, created)
  {
    match e {
      case SendViaPeer(sender, tag, client, peer, sent) =>
        IssueKeepsAge(s.(clients := s.clients[tag := client]), sender, Origin(tag, Mesh, Client(client), Some(peer)),
                      MeshRequest(sender, peer, IdOf(s, sender), tag), sent, edge, slot, id, created);
      case SendLocal(sender, tag, client, connection, sent) =>
        IssueKeepsAge(s.(clients := s.clients[tag := client]), sender,
                      Origin(tag, Connector(connection), Client(client), None),
                      ToConnector(sender, connection, IdOf(s, sender), tag), sent, edge, slot, id, created);
      case ReceiveRequest(m, connection, sent) =>
        IssueKeepsAge(s, m.to, Origin(m.tag, Connector(connection), ToPeer(m.sender, m.id), None),
                      ToConnector(m.to, connection, IdOf(s, m.to), m.tag), sent, edge, slot, id, created);
      case ReceiveFromConnector(m, _) =>
        var t := TakenIf(TableOf(s, m.edge, Connector(m.connection)), m.id, None, s.now).0;
        ShrinkKeepsAge(s, Next(s, e), m.edge, Connector(m.connection), t, edge, slot, id, created);
      case ReceiveReply(m) =>
        if m.ingress == m.to {
          var t := TakenIf(TableOf(s, m.to, Mesh), m.id, Some(m.sender), s.now).0;
          ShrinkKeepsAge(s, Next(s, e), m.to, Mesh, t, edge, slot, id, created);
        }
      case _ =>
    }
  }

  lemma {:induction false} RunKeepsAge(s: Sys, es: seq<Event>, edge: EdgeId, slot: Slot, id: nat, created: nat)
    requires Allowed(s, es) && CreatedAt(s, edge, slot, id, created)
    ensures CreatedAt(Run(s, es), edge, slot, id, created)
    decreases |es|
  {
    if es != [] {
      StepKeepsAge(s, es[0], edge, slot, id, created);
      RunKeepsAge(Next(s, es[0]), es[1..], edge, slot, id, created);
    }
  }

  /** The first claim of an entry, after any run, gets it exactly when it comes within the ttl. */
  lemma FirstClaim(s: Sys, es: seq<Event>, edge: EdgeId, slot: Slot, id: nat, entry: Entry, from: Option<EdgeId>)
    requires Allowed(s, es) && Awaits(s, edge, slot, id, entry) && (from.None? || entry.expectPeer == from)
    requires forall e :: e in es ==> !Claims(e, edge, slot, id, entry)
    ensures var s' := Run(s, es);
            && s'.bad == s.bad
            && TakenIf(TableOf(s', edge, slot), id, from, s'.now).1 ==
               if s'.now < entry.created + s.ttl then Some(entry) else None
  {
    TimeAdvances(s, es);
    if Run(s, es).now < entry.created + s.ttl {
      EntryIsKept(s, es, edge, slot, id, entry);
    } else {
      RunKeepsAge(s, es, edge, slot, id, entry.created);
    }
  }

  lemma SentViaPeer(s: Sys, edge: EdgeId, tag: nat, client: string, peer: EdgeId)
    requires Inv(s) && Enabled(s, SendViaPeer(edge, tag, client, peer, true))
    requires HasRoom(s, edge, Mesh) && s.maxEntries > 0
    ensures var s' := Next(s, SendViaPeer(edge, tag, client, peer, true));
            && Awaits(s', edge, Mesh, IdOf(s, edge), Entry(Client(client), Some(peer), s.now))
            && MeshRequest(edge, peer, IdOf(s, edge), tag) in s'.net
            && s'.bad == s.bad && s'.ttl == s.ttl && s'.maxEntries == s.maxEntries
  {
    NewTagKeeps(s, tag, client);
    IssueAwaits(s.(clients := s.clients[tag := client]), edge, Origin(tag, Mesh, Client(client), Some(peer)),
                MeshRequest(edge, peer, IdOf(s, edge), tag));
  }

  lemma SentLocally(s: Sys, edge: EdgeId, tag: nat, client: string, connection: nat)
    requires Inv(s) && Enabled(s, SendLocal(edge, tag, client, connection, true))
    requires HasRoom(s, edge, Connector(connection)) && s.maxEntries > 0
    ensures var s' := Next(s, SendLocal(edge, tag, client, connection, true));
            && Awaits(s', edge, Connector(connection), IdOf(s, edge), Entry(Client(client), None, s.now))
            && ToConnector(edge, connection, IdOf(s, edge), tag) in s'.net && s'.bad == s.bad && s'.ttl == s.ttl
  {
    NewTagKeeps(s, tag, client);
    IssueAwaits(s.(clients := s.clients[tag := client]), edge, Origin(tag, Connector(connection), Client(client), None),
                ToConnector(edge, connection, IdOf(s, edge), tag));
  }

  /** A request sent through a peer while its table has room is answered: whatever happens in between, the first
      reply with its id from that peer is delivered to the client exactly when it comes within the ttl. */
  lemma TimelyReplyIsDelivered(s: Sys, edge: EdgeId, tag: nat, client: string, peer: EdgeId, es: seq<Event>,
      answer: nat)
    requires Inv(s) && Enabled(s, SendViaPeer(edge, tag, client, peer, true))
    requires HasRoom(s, edge, Mesh) && s.maxEntries > 0
    requires var s1 := Next(s, SendViaPeer(edge, tag, client, peer, true));
             && Allowed(s1, es)
             && (forall e :: e in es ==>
                   !Claims(e, edge, Mesh, IdOf(s, edge), Entry(Client(client), Some(peer), s.now)))
             && MeshReply(peer, edge, edge, IdOf(s, edge), answer) in Run(s1, es).net
    ensures var s2 := Run(Next(s, SendViaPeer(edge, tag, client, peer, true)), es);
            var reply := ReceiveReply(MeshReply(peer, edge, edge, IdOf(s, edge), answer));
            var d := Delivery(edge, IdOf(s, edge), client, answer, Some(peer));
            && Enabled(s2, reply)
            && Next(s2, reply).delivered == if s2.now < s.now + s.ttl then s2.delivered + [d] else s2.delivered
  {
    SentViaPeer(s, edge, tag, client, peer);
    FirstClaim(Next(s, SendViaPeer(edge, tag, client, peer, true)), es, edge, Mesh, IdOf(s, edge),
               Entry(Client(client), Some(peer), s.now), Some(peer));
  }

  /** The same for a request that went to one of the Edge's own Connectors. */
  lemma TimelyLocalReplyIsDelivered(s: Sys, edge: EdgeId, tag: nat, client: string, connection: nat, es: seq<Event>,
      answer: nat, sent: bool)
    requires Inv(s) && Enabled(s, SendLocal(edge, tag, client, connection, true))
    requires HasRoom(s, edge, Connector(connection)) && s.maxEntries > 0
    requires var s1 := Next(s, SendLocal(edge, tag, client, connection, true));
             && Allowed(s1, es)
             && (forall e :: e in es ==>
                   !Claims(e, edge, Connector(connection), IdOf(s, edge), Entry(Client(client), None, s.now)))
             && FromConnector(edge, connection, IdOf(s, edge), answer) in Run(s1, es).net
    ensures var s2 := Run(Next(s, SendLocal(edge, tag, client, connection, true)), es);
            var reply := ReceiveFromConnector(FromConnector(edge, connection, IdOf(s, edge), answer), sent);
            var d := Delivery(edge, IdOf(s, edge), client, answer, None);
            && Enabled(s2, reply)
            && Next(s2, reply).delivered == if s2.now < s.now + s.ttl then s2.delivered + [d] else s2.delivered
  {
    SentLocally(s, edge, tag, client, connection);
    FirstClaim(Next(s, SendLocal(edge, tag, client, connection, true)), es, edge, Connector(connection), IdOf(s, edge),
               Entry(Client(client), None, s.now), None);
  }

  lemma RequestTaken(s: Sys, m: Message, connection: nat)
    requires Inv(s) && Enabled(s, ReceiveRequest(m, connection, true))
    requires HasRoom(s, m.to, Connector(connection)) && s.maxEntries > 0
    ensures var s' := Next(s, ReceiveRequest(m, connection, true));
            && Awaits(s', m.to, Connector(connection), IdOf(s, m.to), Entry(ToPeer(m.sender, m.id), None, s.now))
            && ToConnector(m.to, connection, IdOf(s, m.to), m.tag) in s'.net && s'.bad == s.bad && s'.ttl == s.ttl
  {
    IssueAwaits(s, m.to, Origin(m.tag, Connector(connection), ToPeer(m.sender, m.id), None),
                ToConnector(m.to, connection, IdOf(s, m.to), m.tag));
  }

  lemma ConnectorClaim(s: Sys, m: Message, entry: Entry)
    requires Enabled(s, ReceiveFromConnector(m, true)) && entry.destination.ToPeer?
    ensures var claimed := TakenIf(TableOf(s, m.edge, Connector(m.connection)), m.id, None, s.now).1;
            var net := Next(s, ReceiveFromConnector(m, true)).net;
            var to := entry.destination.ingress;
            && (claimed == Some(entry) ==> MeshReply(m.edge, to, to, entry.destination.requestId, m.tag) in net)
            && (claimed.None? ==> net == s.net)
  {
  }

  /** The second Edge sends the Connector's answer back to the ingress Edge, under the ingress Edge's id. */
  lemma TimelyReplyIsForwarded(s: Sys, m: Message, connection: nat, es: seq<Event>, answer: nat)
    requires Inv(s) && Enabled(s, ReceiveRequest(m, connection, true))
    requires HasRoom(s, m.to, Connector(connection)) && s.maxEntries > 0
    requires var s1 := Next(s, ReceiveRequest(m, connection, true));
             && Allowed(s1, es)
             && (forall e :: e in es ==>
                   !Claims(e, m.to, Connector(connection), IdOf(s, m.to), Entry(ToPeer(m.sender, m.id), None, s.now)))
             && FromConnector(m.to, connection, IdOf(s, m.to), answer) in Run(s1, es).net
    ensures var s2 := Run(Next(s, ReceiveRequest(m, connection, true)), es);
            var reply := ReceiveFromConnector(FromConnector(m.to, connection, IdOf(s, m.to), answer), true);
            && Enabled(s2, reply)
            && (s2.now < s.now + s.ttl ==> MeshReply(m.to, m.sender, m.sender, m.id, answer) in Next(s2, reply).net)
            && (s2.now >= s.now + s.ttl ==> Next(s2, reply).net == s2.net)
  {
    RequestTaken(s, m, connection);
    var entry := Entry(ToPeer(m.sender, m.id), None, s.now);
    var s1 := Next(s, ReceiveRequest(m, connection, true));
    FirstClaim(s1, es, m.to, Connector(connection), IdOf(s, m.to), entry, None);
    ConnectorClaim(Run(s1, es), FromConnector(m.to, connection, IdOf(s, m.to), answer), entry);
  }

  /** What each Edge and Connector puts on the wire for a request and its answer. */
  lemma RequestIsSent(s: Sys, edge: EdgeId, tag: nat, client: string, peer: EdgeId, connection: nat)
    requires Inv(s) && Enabled(s, SendViaPeer(edge, tag, client, peer, true)) && peer !in s.bad && s.maxEntries > 0
    requires HasRoom(s, edge, Mesh)
    requires HasRoom(Next(s, SendViaPeer(edge, tag, client, peer, true)), peer, Connector(connection))
    ensures var s1 := Next(s, SendViaPeer(edge, tag, client, peer, true));
            var request := MeshRequest(edge, peer, IdOf(s, edge), tag);
            && request in s1.net && Enabled(s1, ReceiveRequest(request, connection, true))
            && var s2 := Next(s1, ReceiveRequest(request, connection, true));
               var asked := ToConnector(peer, connection, IdOf(s1, peer), tag);
               && asked in s2.net && Enabled(s2, ConnectorReplies(asked))
               && FromConnector(peer, connection, IdOf(s1, peer), tag) in Next(s2, ConnectorReplies(asked)).net
  {
    SentViaPeer(s, edge, tag, client, peer);
    StepKeepsInv(s, SendViaPeer(edge, tag, client, peer, true));
    IssueAwaits(Next(s, SendViaPeer(edge, tag, client, peer, true)), peer,
                Origin(tag, Connector(connection), ToPeer(edge, IdOf(s, edge)), None),
                ToConnector(peer, connection, IdOf(Next(s, SendViaPeer(edge, tag, client, peer, true)), peer), tag));
  }

  lemma EntryIdIsOld(s: Sys, edge: EdgeId, slot: Slot, id: nat)
    requires Inv(s) && id in TableOf(s, edge, slot).entries
    ensures id < IdOf(s, edge)
  {
    TableOfInv(s, edge, slot);
    assert EntryInv(s, edge, slot, id, TableOf(s, edge, slot).entries[id]);
    assert OriginInv(s, edge, id);
  }

  /** A request that finds no room, or cannot be sent, leaves no entry and no message. */
  lemma FailedSendLeavesNothing(s: Sys, edge: EdgeId, o: Origin, m: Message)
    requires Inv(s) && m !in s.net
    ensures var s' := Issue(s, edge, o, m, false);
            s'.net == s.net && IdOf(s, edge) !in TableOf(s', edge, o.slot).entries
    ensures var s' := Issue(s, edge, o, m, true);
            m in s'.net <==> IdOf(s, edge) in TableOf(s', edge, o.slot).entries
  {
    if IdOf(s, edge) in TableOf(s, edge, o.slot).entries { EntryIdIsOld(s, edge, o.slot, IdOf(s, edge)); }
  }

  /** An answer that cannot be sent on leaves no message, but its entry is used up. */
  lemma UnsentAnswerIsUsedUp(s: Sys, m: Message)
    requires Enabled(s, ReceiveFromConnector(m, false))
    ensures var s' := Next(s, ReceiveFromConnector(m, false));
            s'.net == s.net && m.id !in TableOf(s', m.edge, Connector(m.connection)).entries
  {
  }

  /** The sweep of a table, and the clock. */
  lemma PurgeStepIs(s: Sys, edge: EdgeId, slot: Slot, id: nat, now: nat)
    requires TablesInv(s)
    ensures var before, after := TableOf(s, edge, slot), TableOf(Next(s, Purge(edge, slot)), edge, slot);
            && (id in after.entries <==> id in before.entries && s.now < before.entries[id].created + s.ttl)
            && (id in after.entries ==> after.entries[id] == before.entries[id])
    ensures s.now <= now ==> Next(s, Tick(now)) == s.(now := now)
  {
    TableOfInv(s, edge, slot);
  }

  /** A reply from a peer the request did not go to leaves the entry for the genuine one. */
  lemma WrongPeerLeavesEntry(s: Sys, m: Message)
    requires Inv(s) && Enabled(s, ReceiveReply(m)) && m.ingress == m.to
    requires (m.to, Mesh) in s.tables && m.id in s.tables[(m.to, Mesh)].entries
    requires s.tables[(m.to, Mesh)].entries[m.id].expectPeer != Some(m.sender)
    ensures var s' := Next(s, ReceiveReply(m));
            && s'.tables[(m.to, Mesh)] == s.tables[(m.to, Mesh)] && s'.delivered == s.delivered
            && s.origins[(m.to, m.id)].expectPeer != Some(m.sender)
  {
    TableOfInv(s, m.to, Mesh);
    assert EntryInv(s, m.to, Mesh, m.id, s.tables[(m.to, Mesh)].entries[m.id]);
  }

  lemma InitIsInv(s: Sys)
    requires s.tables == map[] && s.net == {} && s.origins == map[] && s.delivered == []
    ensures Inv(s)
  {
  }
}

/**
 What one store of RADIUS sessions holds and what a push or an expiry makes of it,
 as functions on values. The store object is proved to compute exactly these.
 */
module StoreSpec {
  import opened Common
  import opened Packets
  import Decimal

  const PACKET_TYPE_ACCESS_REQUEST := 1
  const PACKET_TYPE_ACCOUNTING_START := 2
  const PACKET_TYPE_ACCOUNTING_INTERIM := 3
  const PACKET_TYPE_ACCOUNTING_STOP := 4

  datatype IndexConf = IndexConf(indexName: string, isUnique: bool)

  /** Durations and instants are in nanoseconds. */
  datatype Conf = Conf(
    attributes: seq<string>,
    idAttributes: seq<string>,
    indexConf: seq<IndexConf>,
    expirationTime: int,
    limboTime: int)

  function UnixMilli(instant: int): int {
    instant / 1_000_000
  }

  /** An entry of the store. `serial` stands for the address of the entry object: no two entries share it. */
  datatype Session = Session(serial: nat, id: string, packetType: int, packet: Packet, expires: int)

  type Index = map<string, map<string, set<string>>>

  datatype Store = Store(
    sessions: map<string, Session>,
    indexes: Index,
    accepted: seq<Session>,
    started: seq<Session>,
    stopped: seq<Session>,
    made: nat)

  function Empty(conf: Conf): Store {
    Store(map[], map c | c in conf.indexConf :: c.indexName := map[], [], [], [], 0)
  }

  // ----- Reading a packet

  function JoinId(attributes: seq<string>, p: Packet): string {
    if attributes == [] then "" else JoinId(Front(attributes), p) + p.GetString(Last(attributes)) + "/"
  }

  function TrimSlash(s: string): string {
    if s != [] && Last(s) == '/' then Front(s) else s
  }

  function SessionId(conf: Conf, p: Packet): string {
    TrimSlash(JoinId(conf.idAttributes, p))
  }

  /** The lifecycle stage the packet reports, or nothing for an accounting packet without a known status. */
  function PacketType(p: Packet): Option<int> {
    if p.code == ACCESS_REQUEST then Some(PACKET_TYPE_ACCESS_REQUEST)
    else
      match p.GetInt("Acct-Status-Type")
      case 1 => Some(PACKET_TYPE_ACCOUNTING_START)
      case 3 => Some(PACKET_TYPE_ACCOUNTING_INTERIM)
      case 2 => Some(PACKET_TYPE_ACCOUNTING_STOP)
      case _ => None
  }

  /** The packet tells something more recent than the stored entry. */
  predicate Newer(packetType: int, p: Packet, existing: Session) {
    || packetType > existing.packetType
    || p.GetInt("Acct-Session-Time") > existing.packet.GetInt("Acct-Session-Time")
    || p.GetInt("Event-Timestamp") > existing.packet.GetInt("Event-Timestamp")
  }

  predicate DoInsert(s: Store, id: string, packetType: int, p: Packet) {
    id in s.sessions ==> Newer(packetType, p, s.sessions[id])
  }

  // ----- Secondary indexes

  /** The ids filed under a value of an index. */
  function Held(ix: Index, name: string, value: string): set<string> {
    if name in ix && value in ix[name] then ix[name][value] else {}
  }

  function AddId(ix: Index, name: string, value: string, id: string): Index {
    var byValue := if name in ix then ix[name] else map[];
    ix[name := byValue[value := Held(ix, name, value) + {id}]]
  }

  function DropId(ix: Index, name: string, value: string, id: string): Index {
    var byValue := if name in ix then ix[name] else map[];
    var left := Held(ix, name, value) - {id};
    ix[name := if left == {} then byValue - {value} else byValue[value := left]]
  }

  function AddToIndexes(ix: Index, indexConf: seq<IndexConf>, p: Packet, id: string): Index {
    if indexConf == [] then ix
    else
      var before := AddToIndexes(ix, Front(indexConf), p, id);
      var name := Last(indexConf).indexName;
      match p.GetText(name)
      case None => before
      case Some(value) => AddId(before, name, value, id)
  }

  function DropFromIndexes(ix: Index, indexConf: seq<IndexConf>, p: Packet, id: string): Index {
    if indexConf == [] then ix
    else
      var before := DropFromIndexes(ix, Front(indexConf), p, id);
      var name := Last(indexConf).indexName;
      match p.GetText(name)
      case None => before
      case Some(value) => DropId(before, name, value, id)
  }

  // ----- Pushing a packet

  /** `id` names a live session that already has the value the packet claims for a unique index. */
  predicate Offends(s: Store, c: IndexConf, p: Packet, id: string) {
    && c.isUnique
    && p.GetText(c.indexName).Some?
    && id in Held(s.indexes, c.indexName, p.GetText(c.indexName).value)
    && id in s.sessions
    && s.sessions[id].packetType != PACKET_TYPE_ACCOUNTING_STOP
  }

  ghost predicate Justifies(s: Store, conf: Conf, p: Packet, id: string, indexName: string) {
    exists c :: c in conf.indexConf && c.indexName == indexName && Offends(s, c, p, id)
  }

  ghost predicate Rejected(s: Store, conf: Conf, packetType: int, p: Packet) {
    && packetType == PACKET_TYPE_ACCESS_REQUEST
    && exists c, id :: c in conf.indexConf && Offends(s, c, p, id)
  }

  predicate IsStarted(packetType: int) {
    packetType == PACKET_TYPE_ACCOUNTING_START || packetType == PACKET_TYPE_ACCOUNTING_INTERIM
  }

  function Lifetime(conf: Conf, packetType: int): int {
    if packetType == PACKET_TYPE_ACCESS_REQUEST || packetType == PACKET_TYPE_ACCOUNTING_STOP
    then conf.limboTime else conf.expirationTime
  }

  function Expires(conf: Conf, packetType: int, now: int): int {
    UnixMilli(now + Lifetime(conf, packetType))
  }

  function NumberAvp(name: string, n: int): Avp {
    Avp(name, Decimal.FormatInt(n), n)
  }

  /** The copy that is stored: only the configured attributes, then the store's own ones. */
  function StoredPacket(conf: Conf, packetType: int, p: Packet, now: int): Packet {
    p.Copy(conf.attributes)
    .Add(NumberAvp("SessionStore-Expires", Expires(conf, packetType, now)))
    .Add(NumberAvp("SessionStore-LastUpdated", UnixMilli(now)))
    .Add(Avp("SessionStore-Id", SessionId(conf, p), 0))
  }

  function NewSession(s: Store, conf: Conf, packetType: int, p: Packet, now: int): Session {
    Session(s.made, SessionId(conf, p), packetType, StoredPacket(conf, packetType, p, now),
        Expires(conf, packetType, now))
  }

  function Without(list: seq<Session>, e: Session): seq<Session> {
    if list == [] then []
    else if list[0] == e then list[1..]
    else [list[0]] + Without(list[1..], e)
  }

  /** The new entry goes to the end of the list of its type. */
  function Link(s: Store, e: Session): Store {
    Store(
      s.sessions,
      s.indexes,
      if e.packetType == PACKET_TYPE_ACCESS_REQUEST then s.accepted + [e] else s.accepted,
      if IsStarted(e.packetType) then s.started + [e] else s.started,
      if e.packetType == PACKET_TYPE_ACCOUNTING_STOP then s.stopped + [e] else s.stopped,
      s.made + 1)
  }

  function Unlink(s: Store, e: Session): Store {
    s.(
      accepted := if e.packetType == PACKET_TYPE_ACCESS_REQUEST then Without(s.accepted, e) else s.accepted,
      started := if IsStarted(e.packetType) then Without(s.started, e) else s.started,
      stopped := if e.packetType == PACKET_TYPE_ACCOUNTING_STOP then Without(s.stopped, e) else s.stopped)
  }

  /** The replaced entry is unlinked unless it is a stopped one. */
  function UnlinkReplaced(s: Store, e: Session): Store {
    if e.packetType == PACKET_TYPE_ACCOUNTING_STOP then s else Unlink(s, e)
  }

  /** The lists after the new entry joined and the replaced one left. */
  function Relink(s: Store, e: Session): Store {
    var linked := Link(s, e);
    if e.id in s.sessions then UnlinkReplaced(linked, s.sessions[e.id]) else linked
  }

  predicate Refreshes(s: Store, id: string) {
    id in s.sessions ==> s.sessions[id].packetType == PACKET_TYPE_ACCESS_REQUEST
  }

  function Reindex(s: Store, conf: Conf, p: Packet, id: string): Index {
    if Refreshes(s, id) then AddToIndexes(s.indexes, conf.indexConf, p, id) else s.indexes
  }

  function Insert(s: Store, conf: Conf, p: Packet, e: Session): Store {
    Relink(s, e).(
      sessions := s.sessions[e.id := e],
      indexes := Reindex(s, conf, p, e.id))
  }

  ghost predicate Inserts(s: Store, conf: Conf, p: Packet) {
    && PacketType(p).Some?
    && DoInsert(s, SessionId(conf, p), PacketType(p).value, p)
    && !Rejected(s, conf, PacketType(p).value, p)
  }

  ghost function Push(s: Store, conf: Conf, p: Packet, now: int): Store {
    if Inserts(s, conf, p) then Insert(s, conf, p, NewSession(s, conf, PacketType(p).value, p, now)) else s
  }

  // ----- Expiring entries

  function Delete(s: Store, conf: Conf, e: Session): Store {
    var unlinked := Unlink(s, e);
    unlinked.(
      sessions := s.sessions - {e.id},
      indexes := DropFromIndexes(s.indexes, conf.indexConf, e.packet, e.id))
  }

  function ExpireAmong(s: Store, conf: Conf, entries: seq<Session>, cutoff: int): Store {
    if entries == [] then s
    else
      var before := ExpireAmong(s, conf, Front(entries), cutoff);
      if Last(entries).expires <= cutoff then Delete(before, conf, Last(entries)) else before
  }

  function ExpireAll(s: Store, conf: Conf, expireDate: int, limboDate: int): Store {
    var s1 := ExpireAmong(s, conf, s.accepted, UnixMilli(limboDate));
    var s2 := ExpireAmong(s1, conf, s1.started, UnixMilli(expireDate));
    ExpireAmong(s2, conf, s2.stopped, UnixMilli(limboDate))
  }

  // ----- Runs

  /** A packet reaches the store, or the purge ticker fires. */
  datatype Event = Received(packet: Packet, now: int) | Purged(expireDate: int, limboDate: int)

  ghost function Step(s: Store, conf: Conf, e: Event): Store {
    match e
    case Received(p, now) => Push(s, conf, p, now)
    case Purged(expireDate, limboDate) => ExpireAll(s, conf, expireDate, limboDate)
  }

  /** Every event can happen in every state and has one outcome, so the events alone make the run. */
  ghost function Run(conf: Conf, events: seq<Event>): Store {
    if events == [] then Empty(conf) else Step(Run(conf, Front(events)), conf, Last(events))
  }
}

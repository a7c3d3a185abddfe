/** A whole instance, and the units a backup walks over (src/backup.ts,
    src/backup-format.ts). */
module Corpus {
  import opened Records
  import opened D1

  datatype Agent = Agent(name: string, createdAt: string)

  datatype AgentKey = AgentKey(
    agentId: string, prefix: string, hash: string, revokedAt: Option<string>, expiresAt: Option<string>, createdAt: string)

  datatype Client = Client(agentId: string, createdAt: string)

  datatype Phase = Agents | AgentKeys | OAuthClients | Documents | SlugTombstones
  {
    function Next(): Option<Phase> {
      match this
      case Agents => Some(AgentKeys)
      case AgentKeys => Some(OAuthClients)
      case OAuthClients => Some(Documents)
      case Documents => Some(SlugTombstones)
      case SlugTombstones => None
    }

    function Left(): nat {
      match this
      case Agents => 4
      case AgentKeys => 3
      case OAuthClients => 2
      case Documents => 1
      case SlugTombstones => 0
    }
  }

  /** What the walk orders a table by. */
  datatype WalkKey = WalkKey(ts: string, id: string)

  /** One row of a small table, or a document with the list of its versions. */
  datatype Unit =
    | AgentUnit(id: string, agent: Agent)
    | KeyUnit(id: string, key: AgentKey)
    | ClientUnit(id: string, client: Client)
    | DocUnit(id: string, doc: Doc, rows: seq<VerId>)
    | TombUnit(id: string, tomb: Tomb)
  {
    function At(): WalkKey {
      match this
      case AgentUnit(id, a) => WalkKey(a.createdAt, id)
      case KeyUnit(id, k) => WalkKey(k.createdAt, id)
      case ClientUnit(id, c) => WalkKey(c.createdAt, id)
      case DocUnit(id, d, _) => WalkKey(d.createdAt, id)
      case TombUnit(id, t) => WalkKey(t.retiredAt, id)
    }

    predicate In(p: Phase) {
      match p
      case Agents => AgentUnit?
      case AgentKeys => KeyUnit?
      case OAuthClients => ClientUnit?
      case Documents => DocUnit?
      case SlugTombstones => TombUnit?
    }
  }

  // ---- the order of the walk -------------------------------------------------

  predicate TextLess(a: string, b: string) {
    if b == "" then false
    else if a == "" then true
    else a[0] < b[0] || (a[0] == b[0] && TextLess(a[1..], b[1..]))
  }

  predicate KeyLess(a: WalkKey, b: WalkKey) {
    TextLess(a.ts, b.ts) || (a.ts == b.ts && TextLess(a.id, b.id))
  }

  lemma {:induction false} TextLessOneWay(a: string, b: string)
    requires TextLess(a, b)
    ensures !TextLess(b, a)
    decreases a
  {
    if a != "" && a[0] == b[0] {
      TextLessOneWay(a[1..], b[1..]);
    }
  }

  lemma KeyLessOneWay(a: WalkKey, b: WalkKey)
    requires KeyLess(a, b)
    ensures !KeyLess(b, a)
  {
    if TextLess(a.ts, b.ts) {
      TextLessOneWay(a.ts, b.ts);
    } else {
      TextLessOneWay(a.id, b.id);
    }
  }

  /** Each table's rows as `order by ts, id` lists them. */
  datatype Tables = Tables(agents: seq<Unit>, keys: seq<Unit>, clients: seq<Unit>, docs: seq<Unit>, tombs: seq<Unit>)
  {
    function Rows(p: Phase): seq<Unit> {
      match p
      case Agents => agents
      case AgentKeys => keys
      case OAuthClients => clients
      case Documents => docs
      case SlugTombstones => tombs
    }

    /** Every unit, phase after phase. */
    function All(): seq<Unit> { agents + Later(Agents) }

    function Later(p: Phase): seq<Unit>
      decreases p.Left()
    {
      match p.Next()
      case None => []
      case Some(q) => Rows(q) + Later(q)
    }

    /** Rows are in strict walk order and none has an empty stamp. */
    ghost predicate Ordered() {
      forall p: Phase ::
        && (forall i, j | 0 <= i < j < |Rows(p)| :: KeyLess(Rows(p)[i].At(), Rows(p)[j].At()))
        && (forall i | 0 <= i < |Rows(p)| :: Rows(p)[i].At().ts != "" && Rows(p)[i].In(p))
    }
  }
}

/** The rows and objects the service stores: documents, versions, retired slugs
    and R2 blobs. Ids, stamps and slugs are opaque strings. */
module Records {

  datatype Option<+T> = None | Some(value: T)
  {
    function GetOr(default: T): T { if Some? then value else default }
  }

  /** How many bytes UTF-8 takes for a text. */
  function Utf8Size(s: string): nat
    decreases s
  {
    if s == "" then 0
    else
      (if s[0] < '\U{80}' then 1 else if s[0] < '\U{800}' then 2 else if s[0] < '\U{10000}' then 3 else 4) + Utf8Size(s[1..])
  }

  datatype Kind = AgentKind | OperatorKind

  /** Who wrote a version. `clientId` is attribution only. */
  datatype Author = Operator | Agent(agentId: string, clientId: Option<string>)
  {
    function Kind(): Kind { if Operator? then OperatorKind else AgentKind }
    function AgentId(): Option<string> { if Operator? then None else Some(agentId) }
    function ClientId(): Option<string> { if Operator? then None else clientId }
  }

  datatype Format = Html | Markdown
  datatype Visibility = Public | Private
  datatype Status = Active | Deprecated | Archived

  /** SHA-256, taken to be injective: a digest is what it digests. */
  datatype Digest = Digest(of: string)

  /** An R2 object name `<doc>/v<ver>-<nonce>`, or its `.src` sibling. */
  datatype Key = Key(doc: string, ver: nat, nonce: string, isSource: bool)

  datatype Doc = Doc(
    publicId: string,
    current: Option<nat>,
    published: Option<nat>,
    createdBy: Option<string>,
    createdByKind: Kind,
    revokedAt: Option<string>,
    slug: Option<string>,
    visibility: Visibility,
    tags: seq<string>,
    status: Status,
    supersededBy: Option<string>,
    createdAt: string)
  {
    predicate Live() { revokedAt.None? }
  }

  /** The primary key of the `versions` table. */
  datatype VerId = VerId(doc: string, no: nat)

  datatype Version = Version(
    hKey: Key,
    sKey: Option<Key>,
    size: nat,
    sourceSize: Option<nat>,
    sha: Option<Digest>,
    sanitizer: string,
    format: Format,
    title: Option<string>,
    description: Option<string>,
    authorKind: Kind,
    authorAgent: Option<string>,
    authorClient: Option<string>,
    createdAt: string)
  {
    function Keys(): set<Key> {
      if sKey.Some? then {hKey, sKey.value} else {hKey}
    }
  }

  datatype RetireReason = Revoked | Renamed | Released

  datatype Tomb = Tomb(doc: Option<string>, retiredAt: string, reason: RetireReason, redirect: Option<string>)
}

/** The entities of `src/types/`: digests, records, tag keys and the thirteen replicated actions. */
module Types {

  datatype Option<+T> = None | Some(value: T)

  /** The result of code that may stop on an `unwrap` of `None`. */
  datatype Outcome<+T> = Panic | Done(value: T)

  type Byte = b: int | 0 <= b < 256
  type Bytes = seq<Byte>

  /** Rust strings are byte strings no longer than `isize::MAX`; names are compared and sorted as bytes. */
  type Name = b: Bytes | |b| < 0x8000_0000_0000_0000
  type NodeId = nat

  datatype Digest = Digest(algo: string, hash: string)
  datatype TagKey = TagKey(repository: Name, tag: Name)

  /** `Blob` and `Manifest` are two structs with the same seven fields. */
  datatype Record = Record(
    created: int,
    updated: int,
    contentType: Option<string>,
    size: Option<nat>,
    dependencies: Option<seq<Digest>>,
    locations: set<NodeId>,
    repositories: set<Name>)

  datatype Action =
    | Empty
    | BlobStored(timestamp: int, digest: Digest, location: NodeId, user: string)
    | BlobUnstored(timestamp: int, digest: Digest, location: NodeId, user: string)
    | BlobMounted(timestamp: int, digest: Digest, repository: Name, user: string)
    | BlobUnmounted(timestamp: int, digest: Digest, repository: Name, user: string)
    | BlobInfo(timestamp: int, digest: Digest, dependencies: seq<Digest>, contentType: string)
    | BlobStat(timestamp: int, digest: Digest, size: nat)
    | ManifestStored(timestamp: int, digest: Digest, location: NodeId, user: string)
    | ManifestUnstored(timestamp: int, digest: Digest, location: NodeId, user: string)
    | ManifestMounted(timestamp: int, digest: Digest, repository: Name, user: string)
    | ManifestUnmounted(timestamp: int, digest: Digest, repository: Name, user: string)
    | ManifestInfo(timestamp: int, digest: Digest, dependencies: seq<Digest>, contentType: string)
    | ManifestStat(timestamp: int, digest: Digest, size: nat)
    | HashTagged(timestamp: int, digest: Digest, repository: Name, tag: Name, user: string)

  /** Raft log entries, as the storage layer sees them. */
  datatype LogId = LogId(term: nat, leader: NodeId, index: nat)
  datatype Payload =
    | Blank
    | Normal(actions: seq<Action>)
    | Membership(nodes: map<NodeId, string>)
  datatype Entry = Entry(logId: LogId, payload: Payload)
  datatype StoredMembership = StoredMembership(logId: Option<LogId>, nodes: map<NodeId, string>)
}

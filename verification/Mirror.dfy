/** Mirroring (`src/mirror.rs`): one transfer, and the cluster of members that mirror from each other. */
module Mirror {
  import opened Types
  import opened StateMachine
  import opened Replication
  import opened Snapshot
  import opened Store
  import opened Files

  datatype MirrorRequest = Blob(digest: Digest) | Manifest(digest: Digest) {
    function Kind(): Kind {
      match this case Blob(_) => BlobKind case Manifest(_) => ManifestKind
    }

    function Success(location: NodeId, now: int): MirrorResult {
      match this
      case Blob(d) => MirrorResult.Success(this, BlobStored(now, d, location, "$internal"))
      case Manifest(d) => MirrorResult.Success(this, ManifestStored(now, d, location, "$internal"))
    }
  }

  datatype MirrorResult = Retry(request: MirrorRequest) | Success(request: MirrorRequest, action: Action) | Nothing

  /** What a peer answers: nothing, or a status and a stream of chunks that may break off. */
  datatype Chunk = Data(content: Bytes) | Broken
  datatype Reply = Unreachable | Reply(status: nat, chunks: seq<Chunk>)

  /** How the local disk behaves: the writes it takes, and the temporary file as read back (`None` if unreadable). */
  datatype LocalDisk = LocalDisk(create: bool, writes: nat, flush: bool, sync: bool, readBack: Option<Bytes>)

  const OK: nat := 200

  function Joined(chunks: seq<Chunk>): Bytes {
    if chunks == [] || chunks[|chunks| - 1].Broken? then []
    else Joined(chunks[..|chunks| - 1]) + chunks[|chunks| - 1].content
  }

  /** The whole body arrived, was written, and is what was asked for, in transit and on disk. */
  ghost predicate Arrives(reply: Reply, local: LocalDisk, d: Digest, sha256: Bytes -> Digest) {
    && reply.Reply? && reply.status == OK
    && (forall i | 0 <= i < |reply.chunks| :: reply.chunks[i].Data?)
    && local.create && |reply.chunks| <= local.writes && local.flush && local.sync
    && sha256(Joined(reply.chunks)) == d
    && local.readBack.Some? && sha256(local.readBack.value) == d
  }

  /** The file in the place of a digest has that digest. */
  ghost predicate Genuine(disk: Disk, root: Path, k: Kind, d: Digest, sha256: Bytes -> Digest) {
    |d.hash| >= 6 && ContentPath(root, k, d) in disk.files && sha256(disk.files[ContentPath(root, k, d)]) == d
  }

  /** The members that a node may fetch from. */
  function Sources(nodes: map<NodeId, string>, r: Record): set<NodeId> {
    nodes.Keys * r.locations
  }

  /** Where chunk `i` of a body starts. */
  function Offset(chunks: seq<Chunk>, i: nat): nat
    requires i <= |chunks| && forall j | 0 <= j < i :: chunks[j].Data?
  {
    if i == 0 then 0 else Offset(chunks, i - 1) + |chunks[i - 1].content|
  }

  ghost predicate Stands(chunks: seq<Chunk>, body: Bytes, i: nat)
    requires i < |chunks| && forall j | 0 <= j < |chunks| :: chunks[j].Data?
  {
    && Offset(chunks, i) <= Offset(chunks, i + 1) <= |body|
    && body[Offset(chunks, i)..Offset(chunks, i + 1)] == chunks[i].content
  }

  /** The chunks stand in the body one after the other, and nothing else does. */
  ghost predicate IsBody(chunks: seq<Chunk>, body: Bytes)
    requires forall i | 0 <= i < |chunks| :: chunks[i].Data?
  {
    && |body| == Offset(chunks, |chunks|)
    && forall i | 0 <= i < |chunks| :: Stands(chunks, body, i)
  }

  lemma {:induction false} OffsetOfPrefix(chunks: seq<Chunk>, n: nat, i: nat)
    requires i <= n <= |chunks| && forall x | 0 <= x < |chunks| :: chunks[x].Data?
    ensures Offset(chunks[..n], i) == Offset(chunks, i)
  {
    if i > 0 {
      OffsetOfPrefix(chunks, n, i - 1);
    }
  }

  lemma StandsLonger(chunks: seq<Chunk>, body: Bytes, more: Bytes, i: nat)
    requires i < |chunks| - 1 && forall j | 0 <= j < |chunks| :: chunks[j].Data?
    requires Stands(chunks[..|chunks| - 1], body, i)
    ensures Stands(chunks, body + more, i)
  {
    var n := |chunks| - 1;
    OffsetOfPrefix(chunks, n, i);
    OffsetOfPrefix(chunks, n, i + 1);
    assert (body + more)[Offset(chunks, i)..Offset(chunks, i + 1)] == body[Offset(chunks, i)..Offset(chunks, i + 1)];
  }

  lemma {:induction false} JoinedIsBody(chunks: seq<Chunk>)
    requires forall i | 0 <= i < |chunks| :: chunks[i].Data?
    ensures IsBody(chunks, Joined(chunks))
  {
    if chunks != [] {
      var n := |chunks| - 1;
      JoinedIsBody(chunks[..n]);
      OffsetOfPrefix(chunks, n, n);
      forall i | 0 <= i < |chunks|
        ensures Stands(chunks, Joined(chunks), i)
      {
        if i < n {
          assert Stands(chunks[..n], Joined(chunks[..n]), i);
          StandsLonger(chunks, Joined(chunks[..n]), chunks[n].content, i);
        }
      }
    }
  }

  lemma StandsShorter(chunks: seq<Chunk>, body: Bytes, i: nat)
    requires forall j | 0 <= j < |chunks| :: chunks[j].Data?
    requires i < |chunks| - 1 && Stands(chunks, body, i)
    requires Offset(chunks, i + 1) <= Offset(chunks, |chunks| - 1) <= |body|
    ensures Stands(chunks[..|chunks| - 1], body[..Offset(chunks, |chunks| - 1)], i)
  {
    var n := |chunks| - 1;
    OffsetOfPrefix(chunks, n, i);
    OffsetOfPrefix(chunks, n, i + 1);
    assert body[..Offset(chunks, n)][Offset(chunks, i)..Offset(chunks, i + 1)]
        == body[Offset(chunks, i)..Offset(chunks, i + 1)];
  }

  lemma {:induction false} OffsetsIncrease(chunks: seq<Chunk>, i: nat, j: nat)
    requires i <= j <= |chunks| && forall x | 0 <= x < |chunks| :: chunks[x].Data?
    ensures Offset(chunks, i) <= Offset(chunks, j)
  {
    if i < j {
      OffsetsIncrease(chunks, i, j - 1);
    }
  }

  /** There is no other body. */
  lemma {:induction false} BodyIsJoined(chunks: seq<Chunk>, body: Bytes)
    requires forall i | 0 <= i < |chunks| :: chunks[i].Data?
    requires IsBody(chunks, body)
    ensures body == Joined(chunks)
  {
    if chunks != [] {
      var n := |chunks| - 1;
      assert Stands(chunks, body, n);
      OffsetOfPrefix(chunks, n, n);
      var init := body[..Offset(chunks, n)];
      forall i | 0 <= i < n
        ensures Stands(chunks[..n], init, i)
      {
        assert Stands(chunks, body, i);
        OffsetsIncrease(chunks, i + 1, n);
        StandsShorter(chunks, body, i);
      }
      BodyIsJoined(chunks[..n], init);
      assert body == init + body[Offset(chunks, n)..];
    }
  }

  /** Stream a body into the temporary file; `None` stands for giving up. */
  method Download(reply: Reply, local: LocalDisk) returns (hashed: Option<Bytes>)
    ensures hashed.Some? <==> && reply.Reply? && reply.status == OK && local.create && |reply.chunks| <= local.writes
                              && (forall i | 0 <= i < |reply.chunks| :: reply.chunks[i].Data?)
    ensures hashed.Some? ==> hashed.value == Joined(reply.chunks)
    ensures hashed.Some? ==> reply.status == 200 && IsBody(reply.chunks, hashed.value)
  {
    if reply.Unreachable? || reply.status != OK || !local.create {
      return None;
    }
    var hasher: Bytes := [];
    for i := 0 to |reply.chunks|
      invariant i <= local.writes
      invariant forall j | 0 <= j < i :: reply.chunks[j].Data?
      invariant hasher == Joined(reply.chunks[..i])
    {
      if reply.chunks[i].Broken? || i == local.writes {
        return None;
      }
      assert reply.chunks[..i + 1][..i] == reply.chunks[..i];
      hasher := hasher + reply.chunks[i].content;
    }
    assert reply.chunks[..|reply.chunks|] == reply.chunks;
    JoinedIsBody(reply.chunks);
    return Some(hasher);
  }

  /** The addresses of every member that has a copy, in the order the membership lists them. */
  method PeerUrls(nodes: map<NodeId, string>, locations: set<NodeId>) returns (peers: seq<NodeId>)
    ensures forall n :: n in peers <==> n in nodes && n in locations
    ensures forall i, j | 0 <= i < j < |peers| :: peers[i] < peers[j]
  {
    peers := [];
    var rest := nodes.Keys;
    while rest != {}
      invariant rest <= nodes.Keys
      invariant forall n :: n in peers <==> n in nodes && n in locations && n !in rest
      invariant forall n, m | n in peers && m in rest :: n < m
      invariant forall i, j | 0 <= i < j < |peers| :: peers[i] < peers[j]
    {
      var nid := Least(rest);
      if nid in locations {
        forall i | 0 <= i < |peers|
          ensures peers[i] < nid
        {
          var n := peers[i];
          assert n in peers;
        }
        peers := peers + [nid];
      }
      rest := rest - {nid};
    }
  }

  method Least(s: set<NodeId>) returns (least: NodeId)
    requires s != {}
    ensures least in s && forall n | n in s :: least <= n
  {
    least :| least in s;
    var rest := s - {least};
    while rest != {}
      invariant rest <= s && least in s && forall n | n in s && n !in rest :: least <= n
    {
      var n :| n in rest;
      if n < least {
        least := n;
      }
      rest := rest - {n};
    }
  }

  function Below(nodes: set<NodeId>, source: NodeId): set<NodeId> {
    set n | n in nodes && n < source
  }

  /** `source` is the node at place `choice`, modulo their number, of `nodes` in ascending order. */
  ghost predicate IsChoice(nodes: set<NodeId>, choice: nat, source: NodeId) {
    source in nodes && |Below(nodes, source)| == choice % |nodes|
  }

  lemma {:induction false} AscendingCount(peers: seq<NodeId>, nodes: set<NodeId>)
    requires forall i, j | 0 <= i < j < |peers| :: peers[i] < peers[j]
    requires forall n :: n in peers <==> n in nodes
    ensures |nodes| == |peers|
  {
    if peers == [] {
      assert nodes == {};
    } else {
      var init, last := peers[..|peers| - 1], peers[|peers| - 1];
      assert peers == init + [last];
      forall n
        ensures n in init <==> n in nodes - {last}
      {
        assert n in peers <==> n in init || n == last;
      }
      AscendingCount(init, nodes - {last});
      assert last in peers;
    }
  }

  /** A list of nodes in ascending order has at each place the node of that rank. */
  lemma RankOf(nodes: set<NodeId>, peers: seq<NodeId>, i: nat)
    requires i < |peers| && forall x, y | 0 <= x < y < |peers| :: peers[x] < peers[y]
    requires forall n :: n in peers <==> n in nodes
    ensures peers[i] in nodes && |nodes| == |peers| && |Below(nodes, peers[i])| == i
  {
    AscendingCount(peers, nodes);
    forall n
      ensures n in peers[..i] <==> n in Below(nodes, peers[i])
    {
      if n in peers {
        var j :| 0 <= j < |peers| && peers[j] == n;
        assert j < i <==> n < peers[i];
      }
    }
    AscendingCount(peers[..i], Below(nodes, peers[i]));
    assert peers[i] in peers;
  }

  /**
    One transfer at a node. `choice` picks among the sources, `replies` is what each would answer.
    A record that is absent, held or sourceless is skipped without a request; a transfer that succeeds
    leaves a file of the right digest in place and proposes exactly one `Stored`.
   */
  method DoTransfer(store: RegistryStore, disk: FileStore, request: MirrorRequest, choice: nat,
                    replies: map<NodeId, Reply>, local: LocalDisk, sha256: Bytes -> Digest, now: int)
    returns (result: Outcome<MirrorResult>, source: Option<NodeId>)
    requires store.membership.nodes.Keys <= replies.Keys
    modifies disk
    ensures var k, d := request.Kind(), request.digest;
            var o := store.Db().Get(k, d);
            && (source.Some? <==>
                  Wanted(store.Db().Of(k), store.id, d) && Sources(store.membership.nodes, o.value) != {})
            && (source.None? ==> result == Done(MirrorResult.Nothing) && disk.Contents() == old(disk.Contents()))
            && (source.Some? ==>
                  && source.value in Sources(store.membership.nodes, o.value)
                  && (Arrives(replies[source.value], local, d, sha256) ==>
                        Stores(result, old(disk.Contents()), disk.Contents(), disk.root, request, local, store.id, now))
                  && (!Arrives(replies[source.value], local, d, sha256) ==>
                        result == Done(Retry(request)) && disk.Contents() == old(disk.Contents())))
    ensures result.Done? && result.value.Success? ==>
              Genuine(disk.Contents(), disk.root, request.Kind(), request.digest, sha256)
    // in the terms of the two trees and the log
    ensures source.Some? <==>
            var tree := if request.Blob? then store.blobs else store.manifests;
            && request.digest in tree && store.id !in tree[request.digest].locations
            && exists n :: n in tree[request.digest].locations && n in store.membership.nodes
    ensures source.Some? ==>
              var tree := if request.Blob? then store.blobs else store.manifests;
              && source.value in tree[request.digest].locations && source.value in store.membership.nodes
              && IsChoice(Sources(store.membership.nodes, tree[request.digest]), choice, source.value)
    ensures result.Done? && result.value.Success? ==>
              && result.value.request == request
              && result.value.action == if request.Blob? then BlobStored(now, request.digest, store.id, "$internal")
                                        else ManifestStored(now, request.digest, store.id, "$internal")
  {
    var tree := match request case Blob(_) => store.blobs case Manifest(_) => store.manifests;
    var digest := request.digest;
    if digest !in tree || store.id in tree[digest].locations || tree[digest].locations == {} {
      return Done(MirrorResult.Nothing), None;
    }
    var peers := PeerUrls(store.membership.nodes, tree[digest].locations);
    if peers == [] {
      assert forall n | n in Sources(store.membership.nodes, tree[digest]) :: n in peers;
      return Done(MirrorResult.Nothing), None;
    }
    var peer := peers[choice % |peers|];
    assert peer in peers && peer in Sources(store.membership.nodes, tree[digest]);
    RankOf(Sources(store.membership.nodes, tree[digest]), peers, choice % |peers|);
    var arrived := Fetch(replies[peer], local, digest, sha256);
    if !arrived {
      return Done(Retry(request)), Some(peer);
    }
    result := Place(disk, request, local, store.id, now);
    return result, Some(peer);
  }

  /** Download and check: the digest of what was streamed, then that of the file as read back. */
  method Fetch(reply: Reply, local: LocalDisk, digest: Digest, sha256: Bytes -> Digest) returns (arrived: bool)
    ensures arrived <==>
            && reply.Reply? && reply.status == 200 && (forall i | 0 <= i < |reply.chunks| :: reply.chunks[i].Data?)
            && local.create && |reply.chunks| <= local.writes && local.flush && local.sync
            && (exists body :: IsBody(reply.chunks, body) && sha256(body) == digest)
            && local.readBack.Some? && sha256(local.readBack.value) == digest
    ensures arrived <==> Arrives(reply, local, digest, sha256)
  {
    var hashed := Download(reply, local);
    if hashed.Some? {
      forall body | IsBody(reply.chunks, body) {
        BodyIsJoined(reply.chunks, body);
      }
    }
    if hashed.None? || !local.flush || !local.sync || sha256(hashed.value) != digest {
      return false;
    }
    return local.readBack.Some? && sha256(local.readBack.value) == digest;
  }

  /** Move the checked file to its place and propose the copy. */
  method Place(disk: FileStore, request: MirrorRequest, local: LocalDisk, id: NodeId, now: int)
    returns (result: Outcome<MirrorResult>)
    requires local.readBack.Some?
    modifies disk
    ensures Stores(result, old(disk.Contents()), disk.Contents(), disk.root, request, local, id, now)
  {
    var placing := PlaceContent(disk, request.Kind(), request.digest, local.readBack.value);
    match placing {
      case NoPath =>
        return Panic;
      case NotMoved =>
        return Done(Retry(request));
      case Moved =>
        return Done(request.Success(id, now));
    }
  }

  /** The end of a transfer whose content arrived: it is in place and proposed, or the path could not be made. */
  ghost predicate Stores(result: Outcome<MirrorResult>, before: Disk, after: Disk, root: Path, request: MirrorRequest,
                         local: LocalDisk, id: NodeId, now: int)
    requires local.readBack.Some?
  {
    && after == AfterPlacing(before, root, request.Kind(), request.digest, local.readBack.value)
    && match PlacingOf(before, root, request.Kind(), request.digest)
       case NoPath => result == Panic
       case NotMoved => result == Done(Retry(request))
       case Moved => result == Done(request.Success(id, now))
  }

  /**
    In every state a node reaches, a pending digest is skipped by the transfer's guard exactly when its
    record is gone or has no copy anywhere; nothing a node already holds is still pending.
   */
  lemma SkippedAreExtras(id: NodeId, db: Machine, events: seq<Event>, k: Kind, d: Digest)
    requires NodeRun(id, Opened(id, db), events).Done? && CleanRun(id, Opened(id, db), events)
    requires d in NodeRun(id, Opened(id, db), events).value.Pending(k)
    ensures var tree := NodeRun(id, Opened(id, db), events).value.machine.trees.Of(k);
            !Wanted(tree, id, d) <==> d !in tree || tree[d].locations == {}
  {
    PendingAgreesAlways(id, db, events);
    var n := NodeRun(id, Opened(id, db), events).value;
    assert PendingAgrees(n.Pending(k), n.machine.trees.Of(k), id);
  }
}

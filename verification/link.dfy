/** The link registry and download tracker of dist/link.go: links in the
    "link" bucket, and per subscriber and release a download counter in the
    "sub_download" bucket. */
module Links {
  import opened Errors
  import opened Db
  import Hex
  import Releases

  /** What createLinks returns: the links it built and the error, if any. */
  datatype Created = Created(links: seq<Link>, err: Option<Error>)

  /** The values uuid.NewV4 returns for a batch: UUID text, pairwise distinct,
      and not yet used as a link id. */
  ghost predicate FreshIds(st: State, ids: seq<string>) {
    && (forall i :: 0 <= i < |ids| ==> IsUuidText(ids[i]) && ids[i] !in st.links)
    && (forall i, j :: 0 <= i < j < |ids| ==> ids[i] != ids[j])
  }

  /** The links createLinks builds, one per subscriber, in order. */
  function Batch(subs: seq<string>, releaseId: string, ids: seq<string>, now: Time): (batch: seq<Link>)
    requires |ids| == |subs|
    ensures |batch| == |subs|
    ensures forall i :: 0 <= i < |subs| ==> batch[i] == Link(ids[i], subs[i], releaseId, now)
  {
    seq(|subs|, i requires 0 <= i < |subs| => Link(ids[i], subs[i], releaseId, now))
  }

  /** The entries the batch adds to the "link" bucket: each link under its id. */
  function Entries(ids: seq<string>, batch: seq<Link>): (added: map<string, Link>)
    requires |ids| == |batch|
    requires forall i, j :: 0 <= i < j < |ids| ==> ids[i] != ids[j]
    ensures added.Keys == set i | 0 <= i < |ids| :: ids[i]
    ensures forall i :: 0 <= i < |ids| ==> added[ids[i]] == batch[i]
  {
    var added := map i | 0 <= i < |ids| :: ids[i] := batch[i];
    assert forall i :: 0 <= i < |ids| ==> ids[i] in added && added[ids[i]] == batch[i] by {
      forall i | 0 <= i < |ids|
        ensures ids[i] in added && added[ids[i]] == batch[i]
      {
        assert forall j :: 0 <= j < |ids| && ids[j] == ids[i] ==> j == i;
      }
    }
    added
  }

  /** createLinks: in one transaction, one link per subscriber, all for the
      same release and stamped with the same `now`. `ids` are the UUIDs drawn
      for the subscribers in order. Encoding a link fails exactly when `now`
      does not encode, which happens at the first link; the transaction then
      rolls back, and the returned slice holds the one link built so far. */
  function CreateLinks(st: State, subs: seq<string>, releaseId: string, ids: seq<string>, now: Time)
    : (out: (State, Created))
    requires |ids| == |subs| && FreshIds(st, ids)
    ensures out.1.err.Some? <==> |subs| > 0 && !TimeEncodes(now)
    ensures out.1.err.Some? ==>
      && out.1.err == Some(MarshalFailed) && out.0 == st
      && out.1.links == [Link(ids[0], subs[0], releaseId, now)]
    ensures out.1.err.None? ==>
      && |out.1.links| == |subs|
      && (forall i :: 0 <= i < |subs| ==>
            && out.1.links[i].id == ids[i]
            && out.1.links[i].subId == subs[i]
            && out.1.links[i].releaseId == releaseId
            && out.1.links[i].date == now)
      && out.0.links.Keys == st.links.Keys + (set i | 0 <= i < |ids| :: ids[i])
      && (forall i :: 0 <= i < |subs| ==> ids[i] in out.0.links && out.0.links[ids[i]] == out.1.links[i])
      && (forall id :: id in st.links ==> out.0.links[id] == st.links[id])
    ensures out.0.releases == st.releases && out.0.downloads == st.downloads
    ensures out.0.config == st.config && out.0.files == st.files
  {
    if |subs| == 0 then (st, Created([], None))
    else if !TimeEncodes(now) then (st, Created([Link(ids[0], subs[0], releaseId, now)], Some(MarshalFailed)))
    else
      var batch := Batch(subs, releaseId, ids, now);
      var added := Entries(ids, batch);
      assert forall id :: id in st.links ==> id !in added;
      (st.(links := st.links + added), Created(batch, None))
  }

  /** GetLink: the link under id, or ErrLinkNotFound. */
  function GetLink(st: State, id: string): (r: Result<Link>)
    ensures r.Ok? <==> id in st.links
    ensures r.Ok? ==> r.value == st.links[id]
    ensures r.Err? ==> r.error == LinkNotFound
  {
    if id in st.links then Ok(st.links[id]) else Err(LinkNotFound)
  }

  /** removeLinkIf: delete every link the predicate matches. The result of
      the scan is discarded, so the call always reports success. */
  function RemoveLinkIf(st: State, matches: Link -> bool): (out: (State, Option<Error>))
    ensures out.1 == None
    ensures forall id :: id in out.0.links <==> id in st.links && !matches(st.links[id])
    ensures forall id :: id in out.0.links ==> out.0.links[id] == st.links[id]
    ensures out.0.releases == st.releases && out.0.downloads == st.downloads
    ensures out.0.config == st.config && out.0.files == st.files
  {
    (st.(links := map id | id in st.links && !matches(st.links[id]) :: st.links[id]), None)
  }

  /** removeSubLinks: delete the links of one subscriber. */
  function RemoveSubLinks(st: State, subId: string): (out: (State, Option<Error>))
    ensures out.1 == None
    ensures forall id :: id in out.0.links <==> id in st.links && st.links[id].subId != subId
    ensures forall id :: id in out.0.links ==> out.0.links[id] == st.links[id]
    ensures out.0.releases == st.releases && out.0.downloads == st.downloads
  {
    RemoveLinkIf(st, (link: Link) => link.subId == subId)
  }

  /** removeReleaseLinks: delete the links to one release. */
  function RemoveReleaseLinks(st: State, releaseId: string): (out: (State, Option<Error>))
    ensures out.1 == None
    ensures forall id :: id in out.0.links <==> id in st.links && st.links[id].releaseId != releaseId
    ensures forall id :: id in out.0.links ==> out.0.links[id] == st.links[id]
    ensures out.0.releases == st.releases && out.0.downloads == st.downloads && out.0.files == st.files
  {
    RemoveLinkIf(st, (link: Link) => link.releaseId == releaseId)
  }

  /** Removing twice removes nothing more. */
  lemma RemoveLinkIfIdempotent(st: State, matches: Link -> bool)
    ensures var once := RemoveLinkIf(st, matches).0;
      RemoveLinkIf(once, matches) == (once, None)
  {
    var once := RemoveLinkIf(st, matches).0;
    assert RemoveLinkIf(once, matches).0.links == once.links;
  }

  /** clearLinks, with the behaviour its callers rely on: the "link" bucket
      is emptied and stays usable (see ClearLinksBreaksGetLink for the code as
      written). */
  function ClearLinks(st: State): (out: (State, Option<Error>))
    ensures out.1 == None
    ensures forall id :: id !in out.0.links
    ensures out.0.releases == st.releases && out.0.downloads == st.downloads
    ensures out.0.config == st.config && out.0.files == st.files
  {
    (st.(links := map[]), None)
  }

  /** After clearLinks every lookup is ErrLinkNotFound, and a new batch of
      links can be created. */
  lemma ClearLinksThenGetAndCreate(st: State, id: string, subs: seq<string>, releaseId: string,
                                   ids: seq<string>, now: Time)
    requires |ids| == |subs| && FreshIds(st, ids) && TimeEncodes(now)
    ensures var cleared := ClearLinks(st).0;
      && GetLink(cleared, id) == Err(LinkNotFound)
      && CreateLinks(cleared, subs, releaseId, ids, now).1.err == None
  {
  }

  /** The "link" bucket as a transaction sees it after tx.Bucket: present
      with its entries, or nil once it has been deleted. In every State the
      package reaches through its other operations it is `Bucket(st.links)`. */
  datatype LinkBucket = Bucket(entries: map<string, Link>) | NoBucket

  /** What a lookup in that bucket does: finds a link, reports it missing, or
      dereferences the nil bucket (a panic). */
  datatype Lookup = Found(link: Link) | Missing | NilDereference

  /** clearLinks as written: tx.DeleteBucket removes the bucket itself, and
      nothing creates it again until the next OpenDB. Deleting a bucket that
      is already gone is bolt's ErrBucketNotFound. */
  function ClearLinksAsWritten(b: LinkBucket): (out: (LinkBucket, Option<Error>))
    ensures out.0 == NoBucket
    ensures out.1 == None <==> b.Bucket?
    ensures out.1 == None || out.1 == Some(BucketNotFound)
  {
    match b
    case Bucket(_) => (NoBucket, None)
    case NoBucket => (NoBucket, Some(BucketNotFound))
  }

  /** GetLink as written, on the bucket tx.Bucket returns. */
  function GetLinkIn(b: LinkBucket, id: string): (r: Lookup)
    ensures r == NilDereference <==> b.NoBucket?
    ensures r.Found? <==> b.Bucket? && id in b.entries
    ensures r.Found? ==> r.link == b.entries[id]
  {
    match b
    case NoBucket => NilDereference
    case Bucket(entries) => if id in entries then Found(entries[id]) else Missing
  }

  /** On the bucket a State describes, GetLink as written and the model's
      GetLink agree: a found link is Ok, a missing one ErrLinkNotFound. */
  lemma GetLinkInAgrees(st: State, id: string)
    ensures forall link :: GetLinkIn(Bucket(st.links), id) == Found(link) <==> GetLink(st, id) == Ok(link)
    ensures GetLinkIn(Bucket(st.links), id) == Missing <==> GetLink(st, id) == Err(LinkNotFound)
  {
  }

  /** After clearLinks as written, any GetLink panics on the nil bucket where
      it found a link or reported ErrLinkNotFound before, and where the
      corrected ClearLinks leaves a lookup that reports ErrLinkNotFound. A
      second clearLinks fails with ErrBucketNotFound. */
  lemma ClearLinksBreaksGetLink(st: State, id: string)
    ensures GetLinkIn(Bucket(st.links), id) != NilDereference
    ensures var (deleted, err) := ClearLinksAsWritten(Bucket(st.links));
      && err == None
      && GetLinkIn(deleted, id) == NilDereference
      && ClearLinksAsWritten(deleted).1 == Some(BucketNotFound)
    ensures GetLinkIn(Bucket(ClearLinks(st).0.links), id) == Missing
    ensures GetLink(ClearLinks(st).0, id) == Err(LinkNotFound)
  {
  }

  /** The counter text stored for a subscriber and a release, if any. */
  function Stored(st: State, sub: string, rel: string): Option<string> {
    if sub in st.downloads && rel in st.downloads[sub] then Some(st.downloads[sub][rel]) else None
  }

  /** The counter StreamLink and GetSubDowloadStats read: zero when absent,
      otherwise whatever ParseUint makes of the text. */
  function Counter(st: State, sub: string, rel: string): Hex.u64 {
    match Stored(st, sub, rel)
    case None => 0
    case Some(text) => Hex.CounterValue(text)
  }

  /** No stored counter other than (sub, rel) differs between a and b. */
  ghost predicate SameCountersExcept(a: State, b: State, sub: string, rel: string) {
    forall s, r :: s != sub || r != rel ==> Stored(a, s, r) == Stored(b, s, r)
  }

  /** The counter transaction of StreamLink: read the counter (zero if absent),
      add one with uint64 wrap-around and store it as hex text. bolt refuses an
      empty bucket name or key, which rolls the transaction back. */
  function CountDownload(st: State, sub: string, rel: string): (r: State)
    ensures ValidKey(sub) && ValidKey(rel) ==>
      && Counter(r, sub, rel) == Hex.Increment(Counter(st, sub, rel))
      && Stored(r, sub, rel) == Some(Hex.Format(Counter(r, sub, rel)))
    ensures !(ValidKey(sub) && ValidKey(rel)) ==> r == st
    ensures SameCountersExcept(st, r, sub, rel)
    ensures r.releases == st.releases && r.links == st.links
    ensures r.config == st.config && r.files == st.files
  {
    if !ValidKey(sub) || !ValidKey(rel) then st
    else
      var bucket := if sub in st.downloads then st.downloads[sub] else map[];
      var n := if rel in bucket then Hex.CounterValue(bucket[rel]) else 0;
      var next := Hex.Increment(n);
      Hex.ParseFormat(next);
      st.(downloads := st.downloads[sub := bucket[rel := Hex.Format(next)]])
  }

  /** StreamLink: resolve the link, count the download, then stream the
      release. The count is made before streaming and kept whatever Stream
      returns; an error of the counter transaction is overwritten by Stream's. */
  function StreamLink(st: State, id: string, w: Releases.Writer): (out: (State, Releases.Streamed))
    ensures id !in st.links ==> out == (st, Releases.Streamed([], Some(LinkNotFound)))
    ensures id in st.links ==>
      var link := st.links[id];
      && out.1 == Releases.Stream(st, link.releaseId, w)
      && (ValidKey(link.subId) && ValidKey(link.releaseId) ==>
            Counter(out.0, link.subId, link.releaseId) == Hex.Increment(Counter(st, link.subId, link.releaseId)))
      && (!(ValidKey(link.subId) && ValidKey(link.releaseId)) ==> out.0 == st)
      && SameCountersExcept(st, out.0, link.subId, link.releaseId)
    ensures out.0.releases == st.releases && out.0.links == st.links
    ensures out.0.config == st.config && out.0.files == st.files
  {
    if id !in st.links then (st, Releases.Streamed([], Some(LinkNotFound)))
    else
      var link := st.links[id];
      var counted := CountDownload(st, link.subId, link.releaseId);
      (counted, Releases.Stream(counted, link.releaseId, w))
  }

  /** GetSubDowloadStats: every counter of one subscriber, an empty map when
      there is none. */
  function GetSubDownloadStats(st: State, sub: string): (stats: map<string, Hex.u64>)
    ensures forall rel :: rel in stats <==> Stored(st, sub, rel).Some?
    ensures forall rel :: rel in stats ==> stats[rel] == Counter(st, sub, rel)
  {
    if sub in st.downloads then map rel | rel in st.downloads[sub] :: Hex.CounterValue(st.downloads[sub][rel])
    else map[]
  }

  /** n StreamLink calls on one link, one after another (downloadLock makes
      each call one atomic step). */
  function StreamLinkTimes(st: State, id: string, w: Releases.Writer, n: nat): State
    decreases n
  {
    if n == 0 then st else StreamLinkTimes(StreamLink(st, id, w).0, id, w, n - 1)
  }

  lemma AddOneThenMore(c: Hex.u64, k: nat)
    ensures Hex.Add(Hex.Increment(c), k) == Hex.Add(c, k + 1)
  {
    if c == Hex.MaxU64 {
      assert c + 1 + k == Hex.Modulus + k;
    }
  }

  /** n serialised downloads through one link raise its counter by exactly n
      (modulo 2^64) and leave every other counter alone. */
  lemma {:induction false} RepeatedDownloads(st: State, id: string, w: Releases.Writer, n: nat)
    requires id in st.links
    requires ValidKey(st.links[id].subId) && ValidKey(st.links[id].releaseId)
    ensures var link := st.links[id];
      var st' := StreamLinkTimes(st, id, w, n);
      && Counter(st', link.subId, link.releaseId) == Hex.Add(Counter(st, link.subId, link.releaseId), n)
      && SameCountersExcept(st, st', link.subId, link.releaseId)
      && st'.links == st.links
    decreases n
  {
    if n > 0 {
      var next := StreamLink(st, id, w).0;
      RepeatedDownloads(next, id, w, n - 1);
      DownloadThenMore(st, next, StreamLinkTimes(next, id, w, n - 1), id, w, n);
    }
  }

  /** The inductive step of RepeatedDownloads: one download, then n - 1 more. */
  lemma DownloadThenMore(st: State, next: State, last: State, id: string, w: Releases.Writer, n: nat)
    requires id in st.links && n > 0
    requires ValidKey(st.links[id].subId) && ValidKey(st.links[id].releaseId)
    requires next == StreamLink(st, id, w).0 && last == StreamLinkTimes(next, id, w, n - 1)
    requires next.links == st.links ==>
      var link := next.links[id];
      && Counter(last, link.subId, link.releaseId) == Hex.Add(Counter(next, link.subId, link.releaseId), n - 1)
      && SameCountersExcept(next, last, link.subId, link.releaseId)
      && last.links == next.links
    ensures var link := st.links[id];
      && last == StreamLinkTimes(st, id, w, n)
      && Counter(last, link.subId, link.releaseId) == Hex.Add(Counter(st, link.subId, link.releaseId), n)
      && SameCountersExcept(st, last, link.subId, link.releaseId)
      && last.links == st.links
  {
    var link := st.links[id];
    var sub, rel := link.subId, link.releaseId;
    assert next.links == st.links;
    var c0 := Counter(st, sub, rel);
    assert Counter(next, sub, rel) == Hex.Increment(c0);
    AddOneThenMore(c0, n - 1);
    SameCountersTransitive(st, next, last, sub, rel);
  }

  lemma SameCountersTransitive(a: State, b: State, c: State, sub: string, rel: string)
    requires SameCountersExcept(a, b, sub, rel) && SameCountersExcept(b, c, sub, rel)
    ensures SameCountersExcept(a, c, sub, rel)
  {
    forall s, r | s != sub || r != rel
      ensures Stored(a, s, r) == Stored(c, s, r)
    {
      assert Stored(a, s, r) == Stored(b, s, r);
    }
  }

  /** The first download through a link stores the counter text "1". */
  lemma FirstDownloadStoresOne(st: State, id: string, w: Releases.Writer)
    requires id in st.links
    requires ValidKey(st.links[id].subId) && ValidKey(st.links[id].releaseId)
    requires Stored(st, st.links[id].subId, st.links[id].releaseId) == None
    ensures Stored(StreamLink(st, id, w).0, st.links[id].subId, st.links[id].releaseId) == Some("1")
  {
  }

  /** A link whose release is gone still counts the download, and then
      reports ErrReleaseDataNotFound. */
  lemma DownloadOfRemovedRelease(st: State, id: string, w: Releases.Writer)
    requires id in st.links && st.links[id].releaseId !in st.releases
    requires ValidKey(st.links[id].subId) && ValidKey(st.links[id].releaseId)
    ensures var link := st.links[id];
      var (st', s) := StreamLink(st, id, w);
      && s == Releases.Streamed([], Some(ReleaseDataNotFound))
      && Counter(st', link.subId, link.releaseId) == Hex.Increment(Counter(st, link.subId, link.releaseId))
  {
  }

  /** Unpublish as written leaves the release's links in place: a link created
      for it keeps resolving, and downloading through it counts. */
  lemma UnpublishKeepsLinks(st: State, subs: seq<string>, releaseId: string, ids: seq<string>, now: Time,
                            w: Releases.Writer)
    requires |ids| == |subs| && |subs| > 0 && FreshIds(st, ids) && TimeEncodes(now)
    requires ValidKey(subs[0]) && ValidKey(releaseId) && releaseId in st.releases
    ensures var (linked, created) := CreateLinks(st, subs, releaseId, ids, now);
      var (removed, err) := Releases.Unpublish(linked, releaseId, false);
      && err == None
      && GetLink(removed, ids[0]) == Ok(created.links[0])
      && StreamLink(removed, ids[0], w).1 == Releases.Streamed([], Some(ReleaseDataNotFound))
      && Counter(StreamLink(removed, ids[0], w).0, subs[0], releaseId)
         == Hex.Increment(Counter(st, subs[0], releaseId))
  {
  }

  /** Unpublish followed by removeReleaseLinks, as the unused
      removeReleaseLinks evidently intends. */
  function UnpublishWithLinks(st: State, id: string, removeFails: bool): (out: (State, Option<Error>))
    ensures out.1 == Releases.Unpublish(st, id, removeFails).1
    ensures out.1 == None && id in st.releases ==>
      && id !in out.0.releases
      && (forall l :: l in out.0.links ==> out.0.links[l].releaseId != id)
      && (forall l :: l in st.links && st.links[l].releaseId != id ==> l in out.0.links)
  {
    var (removed, err) := Releases.Unpublish(st, id, removeFails);
    if err == None && id in st.releases then RemoveReleaseLinks(removed, id) else (removed, err)
  }

  /** After the corrected Unpublish, a former link of the release is unknown:
      StreamLink reports ErrLinkNotFound and counts nothing. */
  lemma UnpublishWithLinksStopsDownloads(st: State, id: string, link: string, w: Releases.Writer)
    requires id in st.releases && link in st.links && st.links[link].releaseId == id
    ensures var (removed, err) := UnpublishWithLinks(st, id, false);
      && err == None
      && StreamLink(removed, link, w) == (removed, Releases.Streamed([], Some(LinkNotFound)))
  {
  }

  /** createLinks followed by GetLink gives back each link of the batch. */
  lemma CreateThenGetLink(st: State, subs: seq<string>, releaseId: string, ids: seq<string>, now: Time, other: string)
    requires |ids| == |subs| && FreshIds(st, ids) && TimeEncodes(now)
    requires other !in st.links && forall i :: 0 <= i < |ids| ==> ids[i] != other
    ensures var (st', created) := CreateLinks(st, subs, releaseId, ids, now);
      && created.err == None
      && (forall i :: 0 <= i < |subs| ==> GetLink(st', ids[i]) == Ok(created.links[i]))
      && GetLink(st', other) == Err(LinkNotFound)
  {
  }

  /** The link operations keep the store coherent. */
  lemma CreateLinksKeepsCoherent(st: State, subs: seq<string>, releaseId: string, ids: seq<string>, now: Time)
    requires |ids| == |subs| && FreshIds(st, ids) && Coherent(st)
    ensures Coherent(CreateLinks(st, subs, releaseId, ids, now).0)
  {
  }

  lemma StreamLinkKeepsCoherent(st: State, id: string, w: Releases.Writer)
    requires Coherent(st)
    ensures Coherent(StreamLink(st, id, w).0)
  {
    if id in st.links {
      var link := st.links[id];
      var st' := StreamLink(st, id, w).0;
      Hex.FormatCanonical(Counter(st', link.subId, link.releaseId));
      forall sub, rel | sub in st'.downloads && rel in st'.downloads[sub]
        ensures Hex.Canonical(st'.downloads[sub][rel])
      {
        assert Stored(st', sub, rel) == Some(st'.downloads[sub][rel]);
        if sub != link.subId || rel != link.releaseId {
          assert Stored(st, sub, rel) == Stored(st', sub, rel);
        }
      }
    }
  }

  lemma RemoveLinkIfKeepsCoherent(st: State, matches: Link -> bool)
    requires Coherent(st)
    ensures Coherent(RemoveLinkIf(st, matches).0)
  {
  }
}

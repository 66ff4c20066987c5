/** The release store of dist/release.go: metadata records in the "release"
    bucket and one data file `<id>.dat` per release. */
module Releases {
  import opened Errors
  import opened Db

  /** What the file system does to Publish's data file: creates and fills it,
      refuses to open it, or fails during the copy (a broken upload or a full
      disk). */
  datatype FileFault = NoFault | OpenFault | CopyFault

  /** The writer Stream copies into: one that takes every byte, or one that
      takes its first `limit` bytes and then fails, as a client that hangs up. */
  datatype Writer = Accepting | FailsAfter(limit: nat)

  /** What a streaming call leaves in the writer, and the error it returns. */
  datatype Streamed = Streamed(written: seq<byte>, err: Option<Error>)

  /** ReleasesByDateDesc.Less: a goes first unless it is strictly older.
      It holds of a record and itself, so it is not a strict order; of two
      records, at least one goes before the other. */
  function Less(a: Release, b: Release): (r: bool)
    ensures r <==> b.date <= a.date
    ensures a.date == b.date ==> r
  {
    !Before(a.date, b.date)
  }

  ghost predicate NonIncreasing(rs: seq<Release>) {
    forall i, j :: 0 <= i < j < |rs| ==> rs[i].date >= rs[j].date
  }

  /** One pass of sort.Stable's insertion sort: the new element, placed after
      the sorted prefix, is swapped leftwards while Less says it goes first. */
  function Insert(x: Release, sorted: seq<Release>): (r: seq<Release>)
    ensures multiset(r) == multiset(sorted) + multiset{x}
    decreases |sorted|
  {
    if |sorted| == 0 then [x]
    else
      var init, last := sorted[..|sorted| - 1], sorted[|sorted| - 1];
      assert sorted == init + [last];
      if Less(x, last) then Insert(x, init) + [last] else sorted + [x]
  }

  lemma {:induction false} InsertSorted(x: Release, sorted: seq<Release>)
    requires NonIncreasing(sorted)
    ensures NonIncreasing(Insert(x, sorted))
    decreases |sorted|
  {
    if |sorted| > 0 {
      var init, last := sorted[..|sorted| - 1], sorted[|sorted| - 1];
      if Less(x, last) {
        InsertSorted(x, init);
        var front := Insert(x, init);
        forall i | 0 <= i < |front|
          ensures front[i].date >= last.date
        {
          assert front[i] in multiset(front);
          if front[i] != x {
            assert front[i] in multiset(init);
            var j :| 0 <= j < |init| && init[j] == front[i];
            assert sorted[j] == init[j];
          }
        }
        assert Insert(x, sorted) == front + [last];
      }
    }
  }

  /** sort.Stable with ReleasesByDateDesc: insertion of each element in turn. */
  function SortByDate(rs: seq<Release>): (r: seq<Release>)
    ensures multiset(r) == multiset(rs)
    ensures NonIncreasing(r)
    decreases |rs|
  {
    if |rs| == 0 then []
    else
      assert rs == rs[..|rs| - 1] + [rs[|rs| - 1]];
      InsertSorted(rs[|rs| - 1], SortByDate(rs[..|rs| - 1]));
      Insert(rs[|rs| - 1], SortByDate(rs[..|rs| - 1]))
  }

  /** How many of the given keys of m hold the record r. */
  ghost function Occurrences(m: map<string, Release>, keys: set<string>, r: Release): nat {
    |set k | k in keys && k in m && m[k] == r|
  }

  /** `list` holds every record of m as often as m holds it, and nothing else. */
  ghost predicate Lists(list: seq<Release>, m: map<string, Release>) {
    forall r :: multiset(list)[r] == Occurrences(m, m.Keys, r)
  }

  lemma OccurrencesStep(m: map<string, Release>, keys: set<string>, k: string, r: Release)
    requires k in m && k !in keys
    ensures Occurrences(m, keys + {k}, r) == Occurrences(m, keys, r) + (if m[k] == r then 1 else 0)
  {
    var before := set k' | k' in keys && k' in m && m[k'] == r;
    var after := set k' | k' in keys + {k} && k' in m && m[k'] == r;
    if m[k] == r {
      assert after == before + {k};
    } else {
      assert after == before;
    }
  }

  lemma CollectStep(records: seq<Release>, m: map<string, Release>, seen: set<string>, k: string)
    requires k in m && k !in seen
    requires forall r :: multiset(records)[r] == Occurrences(m, seen, r)
    ensures forall r :: multiset(records + [m[k]])[r] == Occurrences(m, seen + {k}, r)
  {
    forall r | true
      ensures multiset(records + [m[k]])[r] == Occurrences(m, seen + {k}, r)
    {
      OccurrencesStep(m, seen, k, r);
    }
  }

  /** List: every record of the "release" bucket, newest first. bolt visits
      keys in byte order; the model fixes no order of visit, and the contract
      promises nothing about the order of records with equal dates. */
  method List(st: State) returns (list: seq<Release>)
    ensures Lists(list, st.releases)
    ensures NonIncreasing(list)
  {
    var records: seq<Release> := [];
    var rest := st.releases.Keys;
    ghost var seen: set<string> := {};
    while rest != {}
      invariant rest !! seen && rest + seen == st.releases.Keys
      invariant forall r :: multiset(records)[r] == Occurrences(st.releases, seen, r)
      decreases rest
    {
      var k :| k in rest;
      CollectStep(records, st.releases, seen, k);
      records := records + [st.releases[k]];
      rest := rest - {k};
      seen := seen + {k};
    }
    list := SortByDate(records);
  }

  /** Publish: store the upload as `<id>.dat` under a fresh UUID, then commit
      the metadata. The caller's ID and Date are ignored. `id` is the value
      uuid.NewV4 returns and `now` the value of time.Now(). A failure after the
      file was opened removes it again. The error of the final Put is
      swallowed; with a 36-character key it cannot arise. */
  function Publish(st: State, release: Release, upload: seq<byte>, id: string, now: Time, fault: FileFault)
    : (out: (State, Result<Release>))
    requires IsUuidText(id) && id !in st.releases && DataFile(id) !in st.files
    ensures out.1.Ok? <==> fault == NoFault && TimeEncodes(now)
    ensures out.1.Err? ==> out.0 == st
    ensures fault == OpenFault ==> out.1 == Err(OpenFailed)
    ensures fault == CopyFault ==> out.1 == Err(CopyFailed)
    ensures fault == NoFault && !TimeEncodes(now) ==> out.1 == Err(MarshalFailed)
    ensures out.1.Ok? ==>
      var saved := out.1.value;
      && saved.id !in st.releases && DataFile(saved.id) !in st.files
      && saved.version == release.version
      && saved.description == release.description
      && saved.date == now
      && out.0.releases == st.releases[saved.id := saved]
      && out.0.files == st.files[DataFile(saved.id) := upload]
      && out.0.links == st.links && out.0.downloads == st.downloads && out.0.config == st.config
  {
    var saved := Release(id, release.version, release.description, now);
    match fault
    case OpenFault => (st, Err(OpenFailed))
    case CopyFault => (st, Err(CopyFailed))
    case NoFault =>
      if !TimeEncodes(now) then (st, Err(MarshalFailed))
      else (st.(files := st.files[DataFile(id) := upload], releases := st.releases[id := saved]), Ok(saved))
  }

  /** Get (getRelease): the record under id, or nil. A missing id is not an error. */
  function Get(st: State, id: string): (r: Option<Release>)
    ensures r.Some? <==> id in st.releases
    ensures r.Some? ==> r.value == st.releases[id]
  {
    if id in st.releases then Some(st.releases[id]) else None
  }

  /** Unpublish: nothing to do for an unknown id; otherwise remove the data
      file, then the record. A missing data file is no obstacle (os.RemoveAll
      ignores it); a failing removal keeps the record. Links are left alone. */
  function Unpublish(st: State, id: string, removeFails: bool): (out: (State, Option<Error>))
    ensures id !in st.releases ==> out == (st, None)
    ensures id in st.releases && removeFails ==> out == (st, Some(RemoveFailed))
    ensures id in st.releases && !removeFails ==>
      && out.1 == None
      && out.0.releases == st.releases - {id}
      && out.0.files == st.files - {DataFile(id)}
      && out.0.links == st.links && out.0.downloads == st.downloads && out.0.config == st.config
  {
    if id !in st.releases then (st, None)
    else if removeFails then (st, Some(RemoveFailed))
    else (st.(files := st.files - {DataFile(id)}, releases := st.releases - {id}), None)
  }

  /** io.Copy from a data file into a writer. */
  function Copy(data: seq<byte>, w: Writer): (s: Streamed)
    ensures s.written <= data
    ensures s.err == None <==> s.written == data
    ensures s.err == None || s.err == Some(SinkFailed)
    ensures w.Accepting? ==> s.err == None
  {
    match w
    case Accepting => Streamed(data, None)
    case FailsAfter(limit) =>
      if |data| <= limit then Streamed(data, None) else Streamed(data[..limit], Some(SinkFailed))
  }

  /** Stream: copy the data file of a release into w. No record is
      ErrReleaseDataNotFound; a record without its file is the open error. */
  function Stream(st: State, id: string, w: Writer): (s: Streamed)
    ensures id !in st.releases ==> s == Streamed([], Some(ReleaseDataNotFound))
    ensures id in st.releases && DataFile(id) !in st.files ==> s == Streamed([], Some(OpenFailed))
    ensures id in st.releases && DataFile(id) in st.files ==>
      s.written <= st.files[DataFile(id)] && (s.err == None <==> s.written == st.files[DataFile(id)])
  {
    if id !in st.releases then Streamed([], Some(ReleaseDataNotFound))
    else if DataFile(id) !in st.files then Streamed([], Some(OpenFailed))
    else Copy(st.files[DataFile(id)], w)
  }

  /** The metadata Publish saves does not depend on the caller's ID or Date. */
  lemma PublishIgnoresCallerIdAndDate(st: State, release: Release, upload: seq<byte>, id: string, now: Time,
                                      fault: FileFault, callerId: string, callerDate: Time)
    requires IsUuidText(id) && id !in st.releases && DataFile(id) !in st.files
    ensures Publish(st, release.(id := callerId, date := callerDate), upload, id, now, fault)
         == Publish(st, release, upload, id, now, fault)
  {
  }

  /** After a successful Publish, Get returns the saved record and Stream
      writes back exactly the uploaded bytes. */
  lemma PublishThenGetAndStream(st: State, release: Release, upload: seq<byte>, id: string, now: Time)
    requires IsUuidText(id) && id !in st.releases && DataFile(id) !in st.files
    requires TimeEncodes(now)
    ensures var (st', r) := Publish(st, release, upload, id, now, NoFault);
      && r.Ok?
      && Get(st', r.value.id) == Some(r.value)
      && Stream(st', r.value.id, Accepting) == Streamed(upload, None)
  {
  }

  /** Publish and Unpublish keep every record beside its data file: Publish
      writes the file before the record, Unpublish removes both or neither. */
  lemma PublishKeepsCoherent(st: State, release: Release, upload: seq<byte>, id: string, now: Time, fault: FileFault)
    requires IsUuidText(id) && id !in st.releases && DataFile(id) !in st.files
    requires Coherent(st)
    ensures Coherent(Publish(st, release, upload, id, now, fault).0)
  {
  }

  lemma UnpublishKeepsCoherent(st: State, id: string, removeFails: bool)
    requires Coherent(st)
    ensures var st' := Unpublish(st, id, removeFails).0;
      && Coherent(st')
      && (id in st.releases ==> (id in st'.releases <==> DataFile(id) in st'.files))
  {
    var st' := Unpublish(st, id, removeFails).0;
    forall other | other in st'.releases
      ensures DataFile(other) in st'.files
    {
      DataFileInjective(other, id);
    }
  }

  /** After a successful Unpublish the release is gone: Get finds nothing and
      Stream reports ErrReleaseDataNotFound; the other releases are intact. */
  lemma UnpublishThenGetAndStream(st: State, id: string, w: Writer, other: string)
    requires Coherent(st)
    requires other != id
    ensures var (st', err) := Unpublish(st, id, false);
      && err == None
      && Get(st', id) == None
      && Stream(st', id, w) == Streamed([], Some(ReleaseDataNotFound))
      && Get(st', other) == Get(st, other)
      && Stream(st', other, w) == Stream(st, other, w)
  {
    DataFileInjective(other, id);
  }

  /** A second Unpublish of the same id changes nothing and succeeds. */
  lemma UnpublishIdempotent(st: State, id: string, removeFails: bool)
    ensures var (st', err) := Unpublish(st, id, false);
      Unpublish(st', id, removeFails) == (st', None)
  {
  }
}

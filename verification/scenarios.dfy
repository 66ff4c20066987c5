/** End-to-end runs of the package on a freshly opened store, following the
    scenarios of dist/release_test.go and dist/link_test.go. */
module Scenarios {
  import opened Errors
  import opened Db
  import Hex
  import Releases
  import Links

  /** The bytes of "OK". */
  const Payload: seq<byte> := [79, 75]

  /** 2017-07-14T02:40:00Z. */
  const Now: Time := 1_500_000_000 * 1_000_000_000

  /** Publish "OK" with an empty version, create a link for subscriber "a",
      download through it: the writer receives "OK", the stored counter is
      "1" and the subscriber's statistics count one download. `releaseId`
      and `linkId` are whatever UUIDs the two calls draw. */
  lemma DownloadScenario(releaseId: string, linkId: string)
    requires IsUuidText(releaseId) && IsUuidText(linkId)
    ensures
      var (published, r) := Releases.Publish(Opened, Release("", "", "", 0), Payload, releaseId, Now, Releases.NoFault);
      r == Ok(Release(releaseId, "", "", Now)) &&
      var (linked, created) := Links.CreateLinks(published, ["a"], releaseId, [linkId], Now);
      created == Links.Created([Link(linkId, "a", releaseId, Now)], None) &&
      var (downloaded, streamed) := Links.StreamLink(linked, linkId, Releases.Accepting);
      && streamed == Releases.Streamed(Payload, None)
      && Links.Stored(downloaded, "a", releaseId) == Some("1")
      && Links.GetSubDownloadStats(downloaded, "a") == map[releaseId := 1]
      && Links.GetSubDownloadStats(downloaded, "b") == map[]
  {
    var (published, r) := Releases.Publish(Opened, Release("", "", "", 0), Payload, releaseId, Now, Releases.NoFault);
    var (linked, created) := Links.CreateLinks(published, ["a"], releaseId, [linkId], Now);
    assert [linkId][0] == linkId;
    assert created.links == [Link(linkId, "a", releaseId, Now)];
    assert linked.links[linkId] == Link(linkId, "a", releaseId, Now);
    var downloaded := Links.StreamLink(linked, linkId, Releases.Accepting).0;
    Hex.ParseFormat(1);
    assert Links.GetSubDownloadStats(downloaded, "a") == map[releaseId := 1];
  }

  /** Ten downloads through one link count ten. */
  lemma TenDownloadsScenario(releaseId: string, linkId: string)
    requires IsUuidText(releaseId) && IsUuidText(linkId)
    ensures
      var published := Releases.Publish(Opened, Release("", "", "", 0), Payload, releaseId, Now, Releases.NoFault).0;
      var linked := Links.CreateLinks(published, ["b"], releaseId, [linkId], Now).0;
      var downloaded := Links.StreamLinkTimes(linked, linkId, Releases.Accepting, 10);
      var stats := Links.GetSubDownloadStats(downloaded, "b");
      releaseId in stats && stats[releaseId] == 10
  {
    var published := Releases.Publish(Opened, Release("", "", "", 0), Payload, releaseId, Now, Releases.NoFault).0;
    var linked := Links.CreateLinks(published, ["b"], releaseId, [linkId], Now).0;
    assert [linkId][0] == linkId;
    assert linked.links[linkId] == Link(linkId, "b", releaseId, Now);
    Links.RepeatedDownloads(linked, linkId, Releases.Accepting, 10);
  }

  /** The occurrence counts of a three-record store determine the multiset. */
  lemma ThreeRecords(list: seq<Release>, r1: Release, r2: Release, r3: Release)
    requires r1 != r2 && r2 != r3 && r1 != r3
    requires Releases.Lists(list, map["1" := r1, "2" := r2, "3" := r3])
    ensures multiset(list) == multiset{r1, r2, r3}
  {
    var m := map["1" := r1, "2" := r2, "3" := r3];
    assert (set k | k in m.Keys && k in m && m[k] == r1) == {"1"};
    assert (set k | k in m.Keys && k in m && m[k] == r2) == {"2"};
    assert (set k | k in m.Keys && k in m && m[k] == r3) == {"3"};
    forall r | r != r1 && r != r2 && r != r3
      ensures multiset(list)[r] == 0
    {
      assert (set k | k in m.Keys && k in m && m[k] == r) == {};
    }
  }

  /** Three records with distinct dates have one non-increasing order. */
  lemma OnlyOrder(list: seq<Release>, r1: Release, r2: Release, r3: Release)
    requires r1.date < r2.date < r3.date
    requires multiset(list) == multiset{r1, r2, r3}
    requires Releases.NonIncreasing(list)
    ensures list == [r3, r2, r1]
  {
    assert |list| == |multiset(list)| == 3;
    assert list[0] in multiset(list) && list[1] in multiset(list) && list[2] in multiset(list);
    assert list[0].date >= list[1].date >= list[2].date;
    assert list[0] == r3 && list[2] == r1;
  }

  /** Three records under keys "1", "2", "3", one second apart, come back
      newest first. */
  method ListScenario() returns (list: seq<Release>)
    ensures list == [Release("", "0.03", "D3", Now + 2_000_000_000),
                     Release("", "0.02", "D2", Now + 1_000_000_000),
                     Release("", "0.01", "D1", Now)]
  {
    var r1 := Release("", "0.01", "D1", Now);
    var r2 := Release("", "0.02", "D2", Now + 1_000_000_000);
    var r3 := Release("", "0.03", "D3", Now + 2_000_000_000);
    list := Releases.List(Opened.(releases := map["1" := r1, "2" := r2, "3" := r3]));
    ThreeRecords(list, r1, r2, r3);
    OnlyOrder(list, r1, r2, r3);
  }
}

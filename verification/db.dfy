/** The persistent state the dist package works on: the bolt database that
    OpenDB opens with its five buckets, and the release data directory.
    Each bucket is a finite map from key to decoded record; encoding/json is
    taken to be a lossless codec for the records the package itself writes. */
module Db {
  import Hex

  /** An instant, in nanoseconds since the Unix epoch (UTC). */
  type Time = int

  /** time.Time only marshals to JSON when its year lies in [0, 9999]: these
      are the first instant of year 0 and the first instant of year 10000. */
  const FirstEncodable: Time := -62_167_219_200 * 1_000_000_000
  const PastEncodable: Time := 253_402_300_800 * 1_000_000_000

  predicate TimeEncodes(t: Time) {
    FirstEncodable <= t < PastEncodable
  }

  /** time.Time.Before: t is strictly earlier than u. */
  predicate Before(t: Time, u: Time) {
    t < u
  }

  type byte = x: int | 0 <= x < 256

  /** A published version (metadata only; the bytes live in the data directory). */
  datatype Release = Release(id: string, version: string, description: string, date: Time)

  /** A download link sent to one subscriber for one release. */
  datatype Link = Link(id: string, subId: string, releaseId: string, date: Time)

  /** A configuration value, as json.Unmarshal decodes it into interface{}:
      null, a boolean, a float64, a string, a []interface{} or a
      map[string]interface{}. `Unsupported` stands for every Go value
      json.Marshal refuses (a channel, a function, a NaN). */
  datatype Value =
    | Null
    | Bool(b: bool)
    | Number(x: real)
    | Text(s: string)
    | Array(items: seq<Value>)
    | Object(fields: map<string, Value>)
    | Unsupported

  /** What a key of the "config" bucket holds: a JSON document, or bytes that
      json.Unmarshal cannot decode. */
  datatype Cell = Json(value: Value) | Undecodable

  /** The buckets "release", "link", "sub_download" (subscriber id to a nested
      bucket from release id to counter text) and "config", and the data
      directory, as file name to contents. The "sub" bucket is never used. */
  datatype State = State(
    releases: map<string, Release>,
    links: map<string, Link>,
    downloads: map<string, map<string, string>>,
    config: map<string, Cell>,
    files: map<string, seq<byte>>)

  /** The state right after OpenDB: every bucket exists and is empty. */
  const Opened: State := State(map[], map[], map[], map[], map[])

  /** The data file of a release: `<id>.dat` under the data directory. */
  function DataFile(id: string): string {
    id + ".dat"
  }

  lemma DataFileInjective(a: string, b: string)
    ensures DataFile(a) == DataFile(b) ==> a == b
  {
    if DataFile(a) == DataFile(b) {
      assert a == DataFile(a)[..|a|];
      assert b == DataFile(b)[..|b|];
    }
  }

  /** bolt refuses an empty key in Put and an empty name in CreateBucket. */
  predicate ValidKey(k: string) {
    k != []
  }

  /** The canonical text form of a UUID, as uuid.NewV4().String() prints it:
      five groups of lower-case hex digits separated by dashes, 8-4-4-4-12. */
  predicate IsUuidText(id: string) {
    && |id| == 36
    && forall i :: 0 <= i < |id| ==>
         if i == 8 || i == 13 || i == 18 || i == 23 then id[i] == '-' else Hex.IsLowerHexDigit(id[i])
  }

  /** The invariant every operation of the package keeps: each release record
      sits under its own id and has its data file, each link sits under its
      own id, and every counter is text FormatUint wrote. */
  ghost predicate Coherent(st: State) {
    && (forall id :: id in st.releases ==> st.releases[id].id == id && DataFile(id) in st.files)
    && (forall id :: id in st.links ==> st.links[id].id == id)
    && (forall sub, rel :: sub in st.downloads && rel in st.downloads[sub] ==>
          Hex.Canonical(st.downloads[sub][rel]))
  }

  lemma OpenedIsCoherent()
    ensures Coherent(Opened)
  {
  }
}

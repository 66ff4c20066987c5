/** The configuration part of dist/config.go: the "config" bucket, read whole
    by GetAllConfig and merged into by UpdateConfig, and the download link
    that Configure builds from the base URI. */
module Config {
  import opened Errors
  import opened Db

  /** json.Marshal accepts the value: it is not itself unsupported, and
      neither is any element of an array or any field of an object. */
  predicate Encodes(v: Value)
    decreases v
  {
    match v
    case Unsupported => false
    case Array(items) => forall i :: 0 <= i < |items| ==> Encodes(items[i])
    case Object(fields) => forall k :: k in fields ==> Encodes(fields[k])
    case _ => true
  }

  /** Every cell of the bucket decodes. */
  ghost predicate Decodable(config: map<string, Cell>) {
    forall k :: k in config ==> config[k].Json?
  }

  /** GetAllConfig: every key with its decoded value; if any value fails to
      decode, nil and the decoding error. */
  function GetAllConfig(st: State): (r: Result<map<string, Value>>)
    ensures r.Ok? <==> Decodable(st.config)
    ensures r.Err? ==> r.error == DecodeFailed
    ensures r.Ok? ==> r.value.Keys == st.config.Keys
    ensures r.Ok? ==> forall k :: k in r.value ==> st.config[k] == Json(r.value[k])
  {
    if exists k :: k in st.config && st.config[k].Undecodable? then Err(DecodeFailed)
    else Ok(map k | k in st.config :: st.config[k].value)
  }

  /** `after` is `before` with each of the given keys set to its value in
      `values`, and nothing else changed. */
  ghost predicate MergedOn(before: map<string, Cell>, after: map<string, Cell>, values: map<string, Value>, keys: set<string>)
    requires keys <= values.Keys
  {
    && after.Keys == before.Keys + keys
    && (forall k :: k in keys ==> after[k] == Json(values[k]))
    && (forall k :: k in before && k !in keys ==> after[k] == before[k])
  }

  ghost predicate Merged(before: map<string, Cell>, after: map<string, Cell>, values: map<string, Value>) {
    MergedOn(before, after, values, values.Keys)
  }

  /** UpdateConfig: in one transaction, marshal and put every pair of
      `values`, visited in Go's unspecified map order. The first value
      json.Marshal refuses, or the first empty key bolt refuses, aborts the
      transaction, and nothing of the update is written. */
  method UpdateConfig(st: State, values: map<string, Value>) returns (st': State, err: Option<Error>)
    ensures err == None <==> forall k :: k in values ==> ValidKey(k) && Encodes(values[k])
    ensures err != None ==> st' == st
    ensures err == None || err == Some(MarshalFailed) || err == Some(KeyRequired)
    ensures err == Some(MarshalFailed) ==> exists k :: k in values && !Encodes(values[k])
    ensures err == Some(KeyRequired) ==> "" in values && Encodes(values[""])
    ensures err == None ==> Merged(st.config, st'.config, values) && st' == st.(config := st'.config)
  {
    var pending := st.config;
    var rest := values.Keys;
    while rest != {}
      invariant rest <= values.Keys
      invariant forall k :: k in values && k !in rest ==> ValidKey(k) && Encodes(values[k])
      invariant MergedOn(st.config, pending, values, values.Keys - rest)
      decreases rest
    {
      var k :| k in rest;
      if !Encodes(values[k]) {
        return st, Some(MarshalFailed);
      }
      if !ValidKey(k) {
        return st, Some(KeyRequired);
      }
      pending := pending[k := Json(values[k])];
      rest := rest - {k};
    }
    return st.(config := pending), None;
  }

  /** A merge followed by GetAllConfig reads back every updated key with its
      new value and every other key with its old one. */
  lemma MergeThenGetAll(before: State, after: State, values: map<string, Value>)
    requires Decodable(before.config)
    requires Merged(before.config, after.config, values)
    ensures GetAllConfig(after).Ok?
    ensures GetAllConfig(after).value.Keys == before.config.Keys + values.Keys
    ensures forall k :: k in values ==> GetAllConfig(after).value[k] == values[k]
    ensures forall k :: k in before.config && k !in values ==>
              GetAllConfig(after).value[k] == GetAllConfig(before).value[k]
  {
  }

  /** A fresh store has no configuration, and reading it is not an error. */
  lemma GetAllConfigOfOpened()
    ensures GetAllConfig(Opened) == Ok(map[])
  {
  }

  /** The closure Configure stores in makeLink: the public download URL of a
      link id. */
  function MakeLink(baseUri: string, id: string): (url: string)
    ensures |url| == |baseUri| + 10 + |id|
    ensures url[..|baseUri|] == baseUri
    ensures url[|baseUri|..|baseUri| + 10] == "/download/"
    ensures url[|baseUri| + 10..] == id
  {
    baseUri + "/download/" + id
  }

  /** The link id a download URL names, when it lies under the base URI. */
  function LinkIdOf(baseUri: string, url: string): Option<string> {
    var prefix := baseUri + "/download/";
    if prefix <= url then Some(url[|prefix|..]) else None
  }

  /** The URL makeLink builds leads back to its link id, and a URL that names
      a link id is the one makeLink builds for it. */
  lemma MakeLinkRoundTrip(baseUri: string, id: string, url: string)
    ensures LinkIdOf(baseUri, MakeLink(baseUri, id)) == Some(id)
    ensures LinkIdOf(baseUri, url) == Some(id) ==> MakeLink(baseUri, id) == url
  {
    var prefix := baseUri + "/download/";
    assert MakeLink(baseUri, id) == prefix + id;
    assert (prefix + id)[|prefix|..] == id;
    if LinkIdOf(baseUri, url) == Some(id) {
      assert url == url[..|prefix|] + url[|prefix|..];
    }
  }

  /** Distinct link ids get distinct URLs. */
  lemma MakeLinkInjective(baseUri: string, a: string, b: string)
    ensures MakeLink(baseUri, a) == MakeLink(baseUri, b) ==> a == b
  {
    MakeLinkRoundTrip(baseUri, a, MakeLink(baseUri, b));
  }
}

/** The errors the dist package hands back to its callers, and the Option and
    Result shapes its operations return them in. */
module Errors {

  datatype Error =
    | ReleaseDataNotFound  // ErrReleaseDataNotFound: no metadata under the release id
    | LinkNotFound         // ErrLinkNotFound: no link under the link id
    | OpenFailed           // os.OpenFile or os.Open refused the data file
    | CopyFailed           // io.Copy could not read the upload or write the data file
    | SinkFailed           // io.Copy could not write to the caller's writer
    | MarshalFailed        // json.Marshal refused a value
    | DecodeFailed         // json.Unmarshal could not decode stored bytes
    | KeyRequired          // bolt refused an empty key or bucket name
    | RemoveFailed         // os.RemoveAll could not remove the data file
    | BucketNotFound       // bolt's DeleteBucket found no bucket of that name

  /** A pointer result that may be nil. */
  datatype Option<+T> = None | Some(value: T)

  /** A value, or the error returned in its place. */
  datatype Result<+T> = Ok(value: T) | Err(error: Error)
}

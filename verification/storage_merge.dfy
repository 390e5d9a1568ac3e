/** Partial updates of data-storage settings. */
module StorageMerge {
  import opened Ordered

  datatype S3 = S3(bucket: string, endpoint: string, region: string, pathStyle: bool)
  datatype GCS = GCS(bucket: string)
  datatype WebDAV = WebDAV(
    url: string, username: Option<string>, password: Option<string>,
    insecureSkipTls: Option<bool>, path: Option<string>)

  datatype Settings = Settings(
    dsn: Option<string>, directory: Option<string>, s3: Option<S3>, gcs: Option<GCS>, webdav: Option<WebDAV>)

  datatype S3Input = S3Input(
    bucket: string, endpoint: Option<string>, region: Option<string>,
    accessKey: Option<string>, secretKey: Option<string>, pathStyle: Option<bool>)
  datatype GCSInput = GCSInput(bucket: string, credential: Option<string>)

  /** WebDAV inputs have the shape of WebDAV settings. */
  datatype Input = Input(
    dsn: Option<string>, directory: Option<string>, s3: Option<S3Input>, gcs: Option<GCSInput>, webdav: Option<WebDAV>)

  function Or<T>(a: Option<T>, b: Option<T>): Option<T> { if a.Some? then a else b }

  function Override(next: string, prev: string): string { if next == "" then prev else next }

  // --------------------------------------------------------------- merging

  function MergeS3(prev: S3, next: S3Input): S3 {
    S3(Override(next.bucket, prev.bucket), OrElse(next.endpoint, prev.endpoint),
       OrElse(next.region, prev.region), OrElse(next.pathStyle, prev.pathStyle))
  }

  function NewS3(next: S3Input): S3 {
    S3(next.bucket, OrElse(next.endpoint, ""), OrElse(next.region, ""), OrElse(next.pathStyle, false))
  }

  /** As coded, a stored bucket is kept whatever the input says. */
  function MergeGCS(prev: GCS, next: GCSInput): GCS { prev }

  function MergeWebDAV(prev: WebDAV, next: WebDAV): WebDAV {
    WebDAV(Override(next.url, prev.url), Or(next.username, prev.username), Or(next.password, prev.password),
           Or(next.insecureSkipTls, prev.insecureSkipTls), Or(next.path, prev.path))
  }

  function Merge(existing: Settings, input: Input): Settings {
    Settings(
      Or(input.dsn, existing.dsn),
      Or(input.directory, existing.directory),
      if input.s3.None? then existing.s3
      else if existing.s3.None? then Some(NewS3(input.s3.value)) else Some(MergeS3(existing.s3.value, input.s3.value)),
      if input.gcs.None? then existing.gcs
      else if existing.gcs.None? then Some(GCS(input.gcs.value.bucket))
      else Some(MergeGCS(existing.gcs.value, input.gcs.value)),
      if input.webdav.None? then existing.webdav
      else if existing.webdav.None? then input.webdav
      else Some(MergeWebDAV(existing.webdav.value, input.webdav.value)))
  }

  // ----------------------------------------------------------- composition

  const NO_CHANGE := Input(None, None, None, None, None)

  function ThenS3(a: S3Input, b: S3Input): S3Input {
    S3Input(Override(b.bucket, a.bucket), Or(b.endpoint, a.endpoint), Or(b.region, a.region),
            Or(b.accessKey, a.accessKey), Or(b.secretKey, a.secretKey), Or(b.pathStyle, a.pathStyle))
  }

  /** One input with the effect of `a` followed by `b`.  The first bucket given
      for GCS wins, the last value given for anything else. */
  function Then(a: Input, b: Input): Input {
    Input(
      Or(b.dsn, a.dsn),
      Or(b.directory, a.directory),
      if a.s3.Some? && b.s3.Some? then Some(ThenS3(a.s3.value, b.s3.value)) else Or(b.s3, a.s3),
      if a.gcs.Some? && b.gcs.Some?
      then Some(GCSInput(a.gcs.value.bucket, Or(b.gcs.value.credential, a.gcs.value.credential)))
      else Or(b.gcs, a.gcs),
      if a.webdav.Some? && b.webdav.Some? then Some(MergeWebDAV(a.webdav.value, b.webdav.value)) else Or(b.webdav, a.webdav))
  }

  lemma ThenActs(s: Settings, a: Input, b: Input)
    ensures Merge(Merge(s, a), b) == Merge(s, Then(a, b))
  {
  }

  lemma ThenMonoid(a: Input, b: Input, c: Input)
    ensures Then(Then(a, b), c) == Then(a, Then(b, c))
    ensures Then(NO_CHANGE, a) == a && Then(a, NO_CHANGE) == a
  {
  }

  function MergeAll(s: Settings, inputs: seq<Input>): Settings
    decreases |inputs|
  {
    if inputs == [] then s else MergeAll(Merge(s, inputs[0]), inputs[1..])
  }

  function ThenAll(inputs: seq<Input>): Input
    decreases |inputs|
  {
    if inputs == [] then NO_CHANGE else Then(inputs[0], ThenAll(inputs[1..]))
  }

  /** Any sequence of updates is one update by the composed input. */
  lemma {:induction false} UpdatesCompose(s: Settings, inputs: seq<Input>)
    ensures MergeAll(s, inputs) == Merge(s, ThenAll(inputs))
    decreases |inputs|
  {
    if inputs != [] {
      UpdatesCompose(Merge(s, inputs[0]), inputs[1..]);
      ThenActs(s, inputs[0], ThenAll(inputs[1..]));
    }
  }

  /** No sequence of updates changes a stored GCS bucket; an update does what its
      comment says, keeping the bucket only for an empty input, exactly when the
      input is empty or repeats the stored bucket. */
  lemma GcsBucketIsFixed(s: Settings, inputs: seq<Input>, next: GCSInput)
    requires s.gcs.Some?
    ensures MergeAll(s, inputs).gcs == s.gcs
    ensures MergeGCS(s.gcs.value, next).bucket == Override(next.bucket, s.gcs.value.bucket) <==>
      next.bucket == "" || next.bucket == s.gcs.value.bucket
  {
    UpdatesCompose(s, inputs);
  }
}

/** What a sequence of partial updates stores, field by field. */
module StorageFields {
  import opened Ordered
  import opened StorageMerge

  /** `r` is the last value given, or the stored one if none is. */
  ghost predicate LastGiven<T(!new)>(given: seq<Option<T>>, stored: Option<T>, r: Option<T>) {
    || (r == stored && forall j :: 0 <= j < |given| ==> given[j].None?)
    || (exists k: nat :: GivenAt(given, k, r) && forall j :: k < j < |given| ==> given[j].None?)
  }

  /** `r` is the stored value, or the first one given if none is stored. */
  ghost predicate FirstGiven<T(!new)>(given: seq<Option<T>>, stored: Option<T>, r: Option<T>) {
    || (r == stored && (stored.Some? || forall j :: 0 <= j < |given| ==> given[j].None?))
    || (stored.None? && exists k: nat :: GivenAt(given, k, r) && forall j :: 0 <= j < k ==> given[j].None?)
  }

  ghost predicate GivenAt<T(!new)>(given: seq<Option<T>>, k: nat, r: Option<T>) {
    k < |given| && given[k].Some? && r == given[k]
  }

  /** What each of the inputs gives for one field. */
  function Column<I, T>(inputs: seq<I>, get: I -> Option<T>): (r: seq<Option<T>>)
    ensures |r| == |inputs| && forall i :: 0 <= i < |inputs| ==> r[i] == get(inputs[i])
  {
    seq(|inputs|, i requires 0 <= i < |inputs| => get(inputs[i]))
  }

  function DsnOf(x: Input): Option<string> { x.dsn }
  function DirectoryOf(x: Input): Option<string> { x.directory }
  function BucketOf(x: Input): Option<string> {
    if x.s3.Some? && x.s3.value.bucket != "" then Some(x.s3.value.bucket) else None
  }
  function EndpointOf(x: Input): Option<string> { if x.s3.Some? then x.s3.value.endpoint else None }
  function RegionOf(x: Input): Option<string> { if x.s3.Some? then x.s3.value.region else None }
  function PathStyleOf(x: Input): Option<bool> { if x.s3.Some? then x.s3.value.pathStyle else None }
  function GcsOf(x: Input): Option<GCS> { if x.gcs.Some? then Some(GCS(x.gcs.value.bucket)) else None }
  function UrlOf(x: Input): Option<string> {
    if x.webdav.Some? && x.webdav.value.url != "" then Some(x.webdav.value.url) else None
  }
  function UsernameOf(x: Input): Option<string> { if x.webdav.Some? then x.webdav.value.username else None }
  function PasswordOf(x: Input): Option<string> { if x.webdav.Some? then x.webdav.value.password else None }
  function TlsOf(x: Input): Option<bool> { if x.webdav.Some? then x.webdav.value.insecureSkipTls else None }
  function PathOf(x: Input): Option<string> { if x.webdav.Some? then x.webdav.value.path else None }

  /** The sections that a first creation starts from. */
  const BLANK_S3 := S3("", "", "", false)
  const BLANK_WEBDAV := WebDAV("", None, None, None, None)

  ghost predicate S3Follows(s: Option<S3>, inputs: seq<Input>, r: Option<S3>) {
    var before, after := OrElse(s, BLANK_S3), OrElse(r, BLANK_S3);
    && (r.None? <==> s.None? && forall i :: 0 <= i < |inputs| ==> inputs[i].s3.None?)
    && LastGiven(Column(inputs, BucketOf), Some(before.bucket), Some(after.bucket))
    && LastGiven(Column(inputs, EndpointOf), Some(before.endpoint), Some(after.endpoint))
    && LastGiven(Column(inputs, RegionOf), Some(before.region), Some(after.region))
    && LastGiven(Column(inputs, PathStyleOf), Some(before.pathStyle), Some(after.pathStyle))
  }

  ghost predicate WebDAVFollows(s: Option<WebDAV>, inputs: seq<Input>, r: Option<WebDAV>) {
    var before, after := OrElse(s, BLANK_WEBDAV), OrElse(r, BLANK_WEBDAV);
    && (r.None? <==> s.None? && forall i :: 0 <= i < |inputs| ==> inputs[i].webdav.None?)
    && LastGiven(Column(inputs, UrlOf), Some(before.url), Some(after.url))
    && LastGiven(Column(inputs, UsernameOf), before.username, after.username)
    && LastGiven(Column(inputs, PasswordOf), before.password, after.password)
    && LastGiven(Column(inputs, TlsOf), before.insecureSkipTls, after.insecureSkipTls)
    && LastGiven(Column(inputs, PathOf), before.path, after.path)
  }

  /** Field by field, `r` is what the inputs make of `s`. */
  ghost predicate Follows(s: Settings, inputs: seq<Input>, r: Settings) {
    && LastGiven(Column(inputs, DsnOf), s.dsn, r.dsn)
    && LastGiven(Column(inputs, DirectoryOf), s.directory, r.directory)
    && S3Follows(s.s3, inputs, r.s3)
    && FirstGiven(Column(inputs, GcsOf), s.gcs, r.gcs)
    && WebDAVFollows(s.webdav, inputs, r.webdav)
  }

  lemma LastCons<I, T(!new)>(inputs: seq<I>, get: I -> Option<T>, stored: Option<T>, r: Option<T>)
    requires inputs != [] && LastGiven(Column(inputs[1..], get), Or(get(inputs[0]), stored), r)
    ensures LastGiven(Column(inputs, get), stored, r)
  {
    var given, rest := Column(inputs, get), Column(inputs[1..], get);
    assert forall j :: 0 < j < |given| ==> given[j] == rest[j - 1];
    if forall j :: 0 <= j < |rest| ==> rest[j].None? {
      assert forall j :: 0 < j < |given| ==> given[j].None?;
      assert given[0].Some? ==> GivenAt(given, 0, given[0]);
    } else {
      var k: nat :| GivenAt(rest, k, r) && forall j :: k < j < |rest| ==> rest[j].None?;
      assert GivenAt(given, k + 1, r);
    }
  }

  lemma FirstCons<I, T(!new)>(inputs: seq<I>, get: I -> Option<T>, stored: Option<T>, r: Option<T>)
    requires inputs != [] && FirstGiven(Column(inputs[1..], get), Or(stored, get(inputs[0])), r)
    ensures FirstGiven(Column(inputs, get), stored, r)
  {
    var given, rest := Column(inputs, get), Column(inputs[1..], get);
    assert forall j :: 0 < j < |given| ==> given[j] == rest[j - 1];
    if stored.None? {
      if given[0].Some? {
        assert GivenAt(given, 0, r);
      } else if k: nat :| GivenAt(rest, k, r) && forall j :: 0 <= j < k ==> rest[j].None? {
        assert GivenAt(given, k + 1, r);
      }
    }
  }

  lemma S3Cons(s: Option<S3>, inputs: seq<Input>, r: Option<S3>)
    requires inputs != []
    requires S3Follows(if inputs[0].s3.Some? then Some(MergeS3(OrElse(s, BLANK_S3), inputs[0].s3.value)) else s, inputs[1..], r)
    ensures S3Follows(s, inputs, r)
  {
    var before, after := OrElse(s, BLANK_S3), OrElse(r, BLANK_S3);
    assert inputs == [inputs[0]] + inputs[1..];
    LastCons(inputs, BucketOf, Some(before.bucket), Some(after.bucket));
    LastCons(inputs, EndpointOf, Some(before.endpoint), Some(after.endpoint));
    LastCons(inputs, RegionOf, Some(before.region), Some(after.region));
    LastCons(inputs, PathStyleOf, Some(before.pathStyle), Some(after.pathStyle));
  }

  lemma WebDAVCons(s: Option<WebDAV>, inputs: seq<Input>, r: Option<WebDAV>)
    requires inputs != []
    requires WebDAVFollows(
      if inputs[0].webdav.Some? then Some(MergeWebDAV(OrElse(s, BLANK_WEBDAV), inputs[0].webdav.value)) else s, inputs[1..], r)
    ensures WebDAVFollows(s, inputs, r)
  {
    var before, after := OrElse(s, BLANK_WEBDAV), OrElse(r, BLANK_WEBDAV);
    assert inputs == [inputs[0]] + inputs[1..];
    LastCons(inputs, UrlOf, Some(before.url), Some(after.url));
    LastCons(inputs, UsernameOf, before.username, after.username);
    LastCons(inputs, PasswordOf, before.password, after.password);
    LastCons(inputs, TlsOf, before.insecureSkipTls, after.insecureSkipTls);
    LastCons(inputs, PathOf, before.path, after.path);
  }

  /** Whatever the updates, each stored field is the last one given for it, or the
      one stored before, or that of a blank section; an empty bucket or url gives
      nothing, and for GCS the first bucket stays. */
  lemma {:induction false} MergeAllFollows(s: Settings, inputs: seq<Input>)
    ensures Follows(s, inputs, MergeAll(s, inputs))
    decreases |inputs|
  {
    if inputs != [] {
      var next, r := Merge(s, inputs[0]), MergeAll(s, inputs);
      MergeAllFollows(next, inputs[1..]);
      LastCons(inputs, DsnOf, s.dsn, r.dsn);
      LastCons(inputs, DirectoryOf, s.directory, r.directory);
      FirstCons(inputs, GcsOf, s.gcs, r.gcs);
      S3Cons(s.s3, inputs, r.s3);
      WebDAVCons(s.webdav, inputs, r.webdav);
    }
  }

  lemma LastUnique<T(!new)>(given: seq<Option<T>>, stored: Option<T>, a: Option<T>, b: Option<T>)
    requires LastGiven(given, stored, a) && LastGiven(given, stored, b)
    ensures a == b
  {
    if !(forall j :: 0 <= j < |given| ==> given[j].None?) {
      var k: nat :| GivenAt(given, k, a) && forall j :: k < j < |given| ==> given[j].None?;
      var m: nat :| GivenAt(given, m, b) && forall j :: m < j < |given| ==> given[j].None?;
      assert k == m;
    }
  }

  lemma FirstUnique<T(!new)>(given: seq<Option<T>>, stored: Option<T>, a: Option<T>, b: Option<T>)
    requires FirstGiven(given, stored, a) && FirstGiven(given, stored, b)
    ensures a == b
  {
    if stored.None? && !(forall j :: 0 <= j < |given| ==> given[j].None?) {
      var k: nat :| GivenAt(given, k, a) && forall j :: 0 <= j < k ==> given[j].None?;
      var m: nat :| GivenAt(given, m, b) && forall j :: 0 <= j < m ==> given[j].None?;
      assert k == m;
    }
  }

  lemma S3Unique(s: Option<S3>, inputs: seq<Input>, a: Option<S3>, b: Option<S3>)
    requires S3Follows(s, inputs, a) && S3Follows(s, inputs, b)
    ensures a == b
  {
    var before, x, y := OrElse(s, BLANK_S3), OrElse(a, BLANK_S3), OrElse(b, BLANK_S3);
    LastUnique(Column(inputs, BucketOf), Some(before.bucket), Some(x.bucket), Some(y.bucket));
    LastUnique(Column(inputs, EndpointOf), Some(before.endpoint), Some(x.endpoint), Some(y.endpoint));
    LastUnique(Column(inputs, RegionOf), Some(before.region), Some(x.region), Some(y.region));
    LastUnique(Column(inputs, PathStyleOf), Some(before.pathStyle), Some(x.pathStyle), Some(y.pathStyle));
  }

  lemma WebDAVUnique(s: Option<WebDAV>, inputs: seq<Input>, a: Option<WebDAV>, b: Option<WebDAV>)
    requires WebDAVFollows(s, inputs, a) && WebDAVFollows(s, inputs, b)
    ensures a == b
  {
    var before, x, y := OrElse(s, BLANK_WEBDAV), OrElse(a, BLANK_WEBDAV), OrElse(b, BLANK_WEBDAV);
    LastUnique(Column(inputs, UrlOf), Some(before.url), Some(x.url), Some(y.url));
    LastUnique(Column(inputs, UsernameOf), before.username, x.username, y.username);
    LastUnique(Column(inputs, PasswordOf), before.password, x.password, y.password);
    LastUnique(Column(inputs, TlsOf), before.insecureSkipTls, x.insecureSkipTls, y.insecureSkipTls);
    LastUnique(Column(inputs, PathOf), before.path, x.path, y.path);
  }

  /** The field-by-field account is complete: it allows no other settings. */
  lemma MergeAllIff(s: Settings, inputs: seq<Input>, r: Settings)
    ensures Follows(s, inputs, r) <==> r == MergeAll(s, inputs)
  {
    var m := MergeAll(s, inputs);
    MergeAllFollows(s, inputs);
    if Follows(s, inputs, r) {
      LastUnique(Column(inputs, DsnOf), s.dsn, r.dsn, m.dsn);
      LastUnique(Column(inputs, DirectoryOf), s.directory, r.directory, m.directory);
      FirstUnique(Column(inputs, GcsOf), s.gcs, r.gcs, m.gcs);
      S3Unique(s.s3, inputs, r.s3, m.s3);
      WebDAVUnique(s.webdav, inputs, r.webdav, m.webdav);
    }
  }
}

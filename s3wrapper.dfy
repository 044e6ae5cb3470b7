/** The storage wrapper's path logic: splitting an `s3://bucket/key` URL the
    way Python's `urllib.parse.urlparse` does, choosing the object path a save
    writes to, and the shared extension-to-content-type table that grows on
    every lookup of an unknown extension. */
module S3Paths {
  import opened Wrappers
  import opened PosixPath

  // ---------------------------------------------------------------------------
  // urlparse

  /** Leading characters `urlsplit` strips: C0 controls and space. */
  predicate IsC0OrSpace(c: char) {
    c as int <= 0x20
  }

  /** `url.lstrip(C0 controls and space)`. */
  function LStripC0(s: string): (r: string)
    ensures |r| <= |s| && r == s[|s| - |r|..]
    ensures r == [] || !IsC0OrSpace(r[0])
  {
    if s != [] && IsC0OrSpace(s[0]) then LStripC0(s[1..]) else s
  }

  /** Tab, carriage return and line feed, which `urlsplit` deletes wherever
      they occur. */
  predicate IsUnsafe(c: char) {
    c == '\t' || c == '\r' || c == '\n'
  }

  function RemoveUnsafe(s: string): (r: string)
    ensures forall i :: 0 <= i < |r| ==> !IsUnsafe(r[i])
    ensures (forall i :: 0 <= i < |s| ==> !IsUnsafe(s[i])) ==> r == s
  {
    if s == [] then []
    else if IsUnsafe(s[0]) then RemoveUnsafe(s[1..])
    else [s[0]] + RemoveUnsafe(s[1..])
  }

  /** `s.find(c, start)`: the first index at or after `start` holding `c`, or -1. */
  function FindFrom(s: string, c: char, start: nat): (r: int)
    ensures r == -1 || (start <= r < |s| && s[r] == c)
    ensures forall i :: start <= i < |s| && (r == -1 || i < r) ==> s[i] != c
    decreases |s| - start
  {
    if start >= |s| then -1
    else if s[start] == c then start
    else FindFrom(s, c, start + 1)
  }

  predicate IsAsciiLetter(c: char) {
    'a' <= c <= 'z' || 'A' <= c <= 'Z'
  }

  /** The characters a scheme may hold. */
  predicate IsSchemeChar(c: char) {
    IsAsciiLetter(c) || '0' <= c <= '9' || c == '+' || c == '-' || c == '.'
  }

  /** `s.lower()` on ASCII text. */
  function AsciiLower(s: string): (r: string)
    ensures |r| == |s|
    ensures forall i :: 0 <= i < |s| ==> r[i] == if 'A' <= s[i] <= 'Z' then (s[i] as int + 32) as char else s[i]
  {
    seq(|s|, i requires 0 <= i < |s| => if 'A' <= s[i] <= 'Z' then (s[i] as int + 32) as char else s[i])
  }

  /** `urlsplit`'s scheme step: text before the first `:` is the scheme when it
      is non-empty, starts with an ASCII letter and holds only scheme
      characters; it is lower-cased and cut off together with the `:`. */
  function SplitScheme(url: string): (r: (string, string))
    ensures r.0 == [] ==> r.1 == url
    ensures r.0 != [] ==> IsAsciiLetter(r.0[0]) && |r.0| + 1 + |r.1| == |url| && r.1 == url[|r.0| + 1..]
  {
    var i := FindFrom(url, ':', 0);
    if i > 0 && IsAsciiLetter(url[0]) && forall j :: 0 <= j < i ==> IsSchemeChar(url[j]) then
      (AsciiLower(url[..i]), url[i + 1..])
    else
      ([], url)
  }

  /** Where the network location that starts at `start` ends: the first `/`,
      `?` or `#` from there on, or the end of the text. */
  function NetlocEnd(url: string, start: nat): (d: nat)
    requires start <= |url|
    ensures start <= d <= |url|
    ensures forall i :: start <= i < d ==> url[i] != '/' && url[i] != '?' && url[i] != '#'
    ensures d < |url| ==> url[d] == '/' || url[d] == '?' || url[d] == '#'
  {
    var d := |url|;
    var d := if FindFrom(url, '/', start) >= 0 then FindFrom(url, '/', start) else d;
    var d := if FindFrom(url, '?', start) >= 0 && FindFrom(url, '?', start) < d then FindFrom(url, '?', start) else d;
    if FindFrom(url, '#', start) >= 0 && FindFrom(url, '#', start) < d then FindFrom(url, '#', start) else d
  }

  /** The five parts `urlsplit` returns. */
  datatype SplitResult = SplitResult(scheme: string, netloc: string, path: string, query: string, fragment: string)

  /** `urlsplit` raises `ValueError` on a network location with an unmatched bracket. */
  datatype UrlError = InvalidIPv6Url

  /** `s.split(c, 1)` when `c in s`; `(s, "")` otherwise. */
  function SplitOnce(s: string, c: char): (r: (string, string))
    ensures c !in r.0
    ensures c in s ==> r.0 + [c] + r.1 == s
    ensures c !in s ==> r == (s, [])
  {
    var i := FindFrom(s, c, 0);
    if i < 0 then (s, []) else (s[..i], s[i + 1..])
  }

  /** `urllib.parse.urlsplit(url)` with fragments allowed. */
  function UrlSplit(url0: string): (r: Result<SplitResult, UrlError>)
    ensures r.Success? ==> '#' !in r.value.path && '?' !in r.value.path && '#' !in r.value.query
    ensures r.Success? ==> forall i :: 0 <= i < |r.value.netloc| ==> r.value.netloc[i] !in "/?#"
  {
    var url := RemoveUnsafe(LStripC0(url0));
    var (scheme, rest) := SplitScheme(url);
    var (netloc, rest) := SplitNetloc(rest);
    if ('[' in netloc) != (']' in netloc) then Failure(InvalidIPv6Url)
    else
      var (path, query, fragment) := SplitPathQueryFragment(rest);
      Success(SplitResult(scheme, netloc, path, query, fragment))
  }

  /** After the scheme: the network location that `//` introduces, running up
      to the first `/`, `?` or `#`, and what follows it. */
  function SplitNetloc(rest: string): (r: (string, string))
    ensures forall i :: 0 <= i < |r.0| ==> r.0[i] !in "/?#"
    ensures !(|rest| >= 2 && rest[..2] == "//") ==> r == ([], rest)
  {
    if |rest| >= 2 && rest[..2] == "//" then
      var d := NetlocEnd(rest, 2);
      (rest[2..d], rest[d..])
    else ([], rest)
  }

  /** After the network location: the fragment follows the first `#`, and the
      query the first `?` before it. */
  function SplitPathQueryFragment(rest: string): (r: (string, string, string))
    ensures '#' !in r.0 && '?' !in r.0 && '#' !in r.1
    ensures '#' !in rest && '?' !in rest ==> r == (rest, [], [])
  {
    var (beforeFragment, fragment) := SplitOnce(rest, '#');
    var (path, query) := SplitOnce(beforeFragment, '?');
    assert '#' !in path && '#' !in query by {
      if '?' in beforeFragment {
        assert beforeFragment == path + ['?'] + query;
        assert forall i :: 0 <= i < |path| ==> path[i] == beforeFragment[i];
        assert forall i :: 0 <= i < |query| ==> query[i] == beforeFragment[|path| + 1 + i];
      }
    }
    (path, query, fragment)
  }

  /** The schemes whose last path segment may carry `;parameters`. */
  const UsesParams: seq<string> :=
    ["", "ftp", "hdl", "prospero", "http", "imap", "https", "shttp", "rtsp", "rtsps", "rtspu",
     "sip", "sips", "mms", "sftp", "tel"]

  /** `_splitparams(path)`: parameters start at the first `;` of the last
      segment. */
  function SplitParams(path: string): (r: (string, string))
    ensures |r.0| <= |path| && r.0 == path[..|r.0|]
  {
    var i := if '/' in path then FindFrom(path, ';', RFind(path, '/') as nat) else FindFrom(path, ';', 0);
    if i < 0 then (path, []) else (path[..i], path[i + 1..])
  }

  /** What `urlparse` returns: `urlsplit`'s parts with `;parameters` split off
      the path for the schemes that use them. */
  datatype ParseResult = ParseResult(scheme: string, netloc: string, path: string, params: string,
                                     query: string, fragment: string)

  function UrlParse(url: string): (r: Result<ParseResult, UrlError>)
    ensures r.Success? <==> UrlSplit(url).Success?
    ensures r.Success? ==> r.value.netloc == UrlSplit(url).value.netloc
    ensures r.Success? && UrlSplit(url).value.scheme !in UsesParams ==> r.value.path == UrlSplit(url).value.path
  {
    match UrlSplit(url)
    case Failure(e) => Failure(e)
    case Success(s) =>
      var (path, params) := if s.scheme in UsesParams && ';' in s.path then SplitParams(s.path) else (s.path, []);
      Success(ParseResult(s.scheme, s.netloc, path, params, s.query, s.fragment))
  }

  /** `S3Wrapper.parse_url(s3_url)`: the network location is the bucket and
      the path, less one leading `/`, is the key. */
  function ParseUrl(s3Url: string): (r: Result<(string, string), UrlError>)
    ensures r.Success? <==> UrlParse(s3Url).Success?
    ensures r.Success? ==> r.value.0 == UrlParse(s3Url).value.netloc
    ensures r.Success? ==> var path := UrlParse(s3Url).value.path;
              if path != [] && path[0] == '/' then r.value.1 == path[1..] else r.value.1 == path
  {
    var up :- UrlParse(s3Url);
    var path := if |up.path| > 0 && up.path[0] == '/' then up.path[1..] else up.path;
    Success((up.netloc, path))
  }

  /** `"s3://" + bucket + "/" + key`. */
  function S3Url(bucket: string, key: string): string {
    "s3://" + bucket + "/" + key
  }

  /** A bucket name `parse_url` gives back intact: it contains nothing that
      ends the network location or unbalances brackets, nothing `urlsplit`
      deletes, and nothing outside ASCII (whose NFKC form the check of the
      network location could reject). */
  predicate PlainBucket(bucket: string) {
    forall i :: 0 <= i < |bucket| ==> bucket[i] as int < 128 && bucket[i] !in "/?#[]\t\r\n"
  }

  /** A key `parse_url` gives back intact: no query or fragment marker and
      nothing `urlsplit` deletes (slashes and `;` are fine). */
  predicate PlainKey(key: string) {
    forall i :: 0 <= i < |key| ==> key[i] !in "?#\t\r\n"
  }

  /** Writing an object URL and parsing it back gives the bucket and the key. */
  lemma ParseUrlRoundTrip(bucket: string, key: string)
    requires PlainBucket(bucket) && PlainKey(key)
    ensures ParseUrl(S3Url(bucket, key)) == Success((bucket, key))
  {
    UrlSplitOfS3Url(bucket, key);
    S3HasNoParams();
    assert UrlParse(S3Url(bucket, key)) == Success(ParseResult("s3", bucket, "/" + key, [], [], []));
    assert ("/" + key)[1..] == key;
  }

  lemma S3HasNoParams()
    ensures "s3" !in UsesParams
  {
  }

  /** `urlsplit` of an object URL: scheme `s3`, the bucket as network
      location, `/` and the key as path, no query and no fragment. */
  lemma UrlSplitOfS3Url(bucket: string, key: string)
    requires PlainBucket(bucket) && PlainKey(key)
    ensures UrlSplit(S3Url(bucket, key)) == Success(SplitResult("s3", bucket, "/" + key, [], []))
  {
    var url := S3Url(bucket, key);
    S3UrlIsClean(bucket, key);
    var rest := "//" + bucket + "/" + key;
    SchemeOfS3Url(bucket, key);
    NetlocOfS3Url(bucket, key);
    assert '[' !in bucket && ']' !in bucket by {
      forall i | 0 <= i < |bucket| ensures bucket[i] != '[' && bucket[i] != ']' { }
    }
    assert '#' !in "/" + key && '?' !in "/" + key by {
      forall i | 0 <= i < |"/" + key| ensures ("/" + key)[i] != '#' && ("/" + key)[i] != '?' {
        if i > 0 { assert ("/" + key)[i] == key[i - 1]; }
      }
    }
  }

  /** Nothing of an object URL is stripped or deleted before splitting. */
  lemma S3UrlIsClean(bucket: string, key: string)
    requires PlainBucket(bucket) && PlainKey(key)
    ensures RemoveUnsafe(LStripC0(S3Url(bucket, key))) == S3Url(bucket, key)
  {
    var url := S3Url(bucket, key);
    assert LStripC0(url) == url;
    forall i | 0 <= i < |url| ensures !IsUnsafe(url[i]) {
      if 5 <= i < 5 + |bucket| {
        assert url[i] == bucket[i - 5];
      } else if 6 + |bucket| <= i {
        assert url[i] == key[i - 6 - |bucket|];
      }
    }
  }

  /** The scheme of an object URL is `s3`. */
  lemma SchemeOfS3Url(bucket: string, key: string)
    ensures SplitScheme(S3Url(bucket, key)) == ("s3", "//" + bucket + "/" + key)
  {
    var url := S3Url(bucket, key);
    assert url[0] == 's' && url[1] == '3' && url[2] == ':';
    assert FindFrom(url, ':', 0) == 2;
    assert url[..2] == "s3";
    assert AsciiLower("s3") == "s3";
    assert url[3..] == "//" + bucket + "/" + key;
  }

  /** After `//`, the network location runs up to the `/` that follows the
      bucket. */
  lemma NetlocOfS3Url(bucket: string, key: string)
    requires PlainBucket(bucket)
    ensures var rest := "//" + bucket + "/" + key;
            && rest[..2] == "//"
            && NetlocEnd(rest, 2) == 2 + |bucket|
            && rest[2..2 + |bucket|] == bucket
            && rest[2 + |bucket|..] == "/" + key
  {
    var rest := "//" + bucket + "/" + key;
    var d := 2 + |bucket|;
    assert rest[d] == '/';
    forall i | 2 <= i < d ensures rest[i] != '/' && rest[i] != '?' && rest[i] != '#' {
      assert rest[i] == bucket[i - 2];
    }
    assert rest[2..d] == bucket;
    assert rest[d..] == "/" + key;
  }

  /** Only one leading `/` is removed: a key that itself starts with `/`
      keeps it. */
  lemma ParseUrlKeepsInnerSlash(bucket: string, key: string)
    requires PlainBucket(bucket) && PlainKey(key)
    ensures ParseUrl(S3Url(bucket, "/" + key)) == Success((bucket, "/" + key))
  {
    assert PlainKey("/" + key) by {
      forall i | 0 <= i < |"/" + key| ensures ("/" + key)[i] !in "?#\t\r\n" {
        if i > 0 { assert ("/" + key)[i] == key[i - 1]; }
      }
    }
    ParseUrlRoundTrip(bucket, "/" + key);
  }

  // ---------------------------------------------------------------------------
  // _get_path

  /** Python truthiness of an optional string: present and non-empty. */
  predicate Truthy(s: Option<string>) {
    s.Some? && s.value != []
  }

  /** `_get_path` raises `ValueError` when it has nowhere to write. */
  datatype PathError = NoTargetPath

  /** `S3Wrapper._get_path(filename, target_path)`: a truthy target path wins;
      otherwise the file name joined under the save prefix, which needs both. */
  function GetPath(savePrefix: Option<string>, filename: Option<string>, targetPath: Option<string>)
    : (r: Result<string, PathError>)
    ensures r.Failure? <==> !Truthy(targetPath) && !(Truthy(savePrefix) && Truthy(filename))
    ensures Truthy(targetPath) ==> r == Success(targetPath.value)
    ensures !Truthy(targetPath) && Truthy(savePrefix) && Truthy(filename) ==>
              r == Success(Join(savePrefix.value, filename.value))
  {
    if !Truthy(targetPath) && !(Truthy(savePrefix) && Truthy(filename)) then Failure(NoTargetPath)
    else if Truthy(targetPath) then Success(targetPath.value)
    else Success(Join(savePrefix.value, filename.value))
  }

  /** A relative file name saved under a prefix ends up inside it: the path
      starts with the prefix and ends with the file name. */
  lemma SavedUnderPrefix(savePrefix: string, filename: string)
    requires savePrefix != [] && filename != [] && filename[0] != '/'
    ensures var r := GetPath(Some(savePrefix), Some(filename), None);
            && r.Success?
            && r.value[..|savePrefix|] == savePrefix
            && r.value[|r.value| - |filename|..] == filename
  {
    var r := Join(savePrefix, filename);
    if r == savePrefix + filename {
      assert r[..|savePrefix|] == savePrefix;
      assert r[|r| - |filename|..] == filename;
    } else {
      assert r == savePrefix + "/" + filename;
      assert r[..|savePrefix|] == savePrefix;
      assert r[|r| - |filename|..] == filename;
    }
  }

  // ---------------------------------------------------------------------------
  // content_type_map and save

  const DefaultContentType := "application/octet-stream"

  /** The content type the table gives an extension: its listed type, or the
      default. Extensions are matched exactly, dot and case included. */
  function ContentTypeOf(ext: string): (ct: string)
    ensures ct != DefaultContentType <==> ext in {".html", ".csv", ".txt", ".json"}
    ensures ext == ".html" ==> ct == "text/html"
    ensures ext == ".csv" ==> ct == "text/csv"
    ensures ext == ".txt" ==> ct == "text/plain"
    ensures ext == ".json" ==> ct == "application/json"
  {
    if ext == ".html" then "text/html"
    else if ext == ".csv" then "text/csv"
    else if ext == ".txt" then "text/plain"
    else if ext == ".json" then "application/json"
    else DefaultContentType
  }

  /** The four listed extensions. */
  function InitialContentTypes(): (m: map<string, string>)
    ensures m.Keys == {".html", ".csv", ".txt", ".json"}
    ensures forall ext :: ext in m ==> m[ext] == ContentTypeOf(ext)
  {
    map[".html" := "text/html", ".csv" := "text/csv", ".txt" := "text/plain", ".json" := "application/json"]
  }

  /** `S3Wrapper.content_type_map`: one `defaultdict` shared by every wrapper.
      A lookup of an extension it does not hold inserts it with the default. */
  class ContentTypeMap {
    var entries: map<string, string>

    /** The four listed extensions are present, and every entry agrees with
        the table. */
    ghost predicate Valid()
      reads this
    {
      && InitialContentTypes().Keys <= entries.Keys
      && forall ext :: ext in entries ==> entries[ext] == ContentTypeOf(ext)
    }

    constructor ()
      ensures Valid() && entries == InitialContentTypes()
    {
      entries := InitialContentTypes();
    }

    /** `content_type_map[ext]`. */
    method Get(ext: string) returns (contentType: string)
      requires Valid()
      modifies this
      ensures Valid()
      ensures contentType == ContentTypeOf(ext)
      ensures entries == old(entries)[ext := contentType]
      ensures ext in old(entries) ==> entries == old(entries)
    {
      if ext !in entries {
        entries := entries[ext := DefaultContentType];
      }
      contentType := entries[ext];
    }
  }

  /** What a save writes: the object path, its content type and the contents. */
  datatype Upload = Upload(path: string, contentType: string, contents: string)

  /** The text whose extension picks the content type: `filename or target_path`.
      A non-empty file name wins, even when the target path decides where the
      object goes. */
  function ExtensionSource(filename: Option<string>, targetPath: Option<string>): (s: string)
    requires Truthy(filename) || Truthy(targetPath)
    ensures s != []
    ensures Truthy(filename) ==> s == filename.value
    ensures !Truthy(filename) ==> s == targetPath.value
  {
    if Truthy(filename) then filename.value else targetPath.value
  }

  class S3Wrapper {
    const savePrefix: Option<string>
    const contentTypes: ContentTypeMap

    constructor (savePrefix: Option<string>, contentTypes: ContentTypeMap)
      ensures this.savePrefix == savePrefix && this.contentTypes == contentTypes
    {
      this.savePrefix := savePrefix;
      this.contentTypes := contentTypes;
    }

    /** `S3Wrapper.save(contents, filename, target_path)`: resolve the path,
        take the content type from the file name's extension when a file name
        is given (even if the target path decides where it goes), else from
        the target path's, and return the path. `upload` is the object the
        call writes. */
    method Save(contents: string, filename: Option<string>, targetPath: Option<string>)
      returns (r: Result<string, PathError>, upload: Option<Upload>)
      requires contentTypes.Valid()
      modifies contentTypes
      ensures contentTypes.Valid()
      ensures r == GetPath(savePrefix, filename, targetPath)
      ensures r.Failure? ==> upload.None? && unchanged(contentTypes)
      ensures r.Success? ==>
                var ext := SplitExt(ExtensionSource(filename, targetPath)).1;
                && upload == Some(Upload(r.value, ContentTypeOf(ext), contents))
                && contentTypes.entries == old(contentTypes.entries)[ext := ContentTypeOf(ext)]
    {
      r := GetPath(savePrefix, filename, targetPath);
      if r.Failure? {
        return r, None;
      }
      var (_, ext) := SplitExt(ExtensionSource(filename, targetPath));
      var contentType := contentTypes.Get(ext);
      upload := Some(Upload(r.value, contentType, contents));
    }
  }
}

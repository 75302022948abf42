/**
 * The S3 helpers of lib/s3.js: file names for uploaded objects, their keys and public
 * URLs, the key read back out of a URL on delete, and the client that is created on
 * first use and reused afterwards. The environment, the clock, the random bytes, the
 * AWS calls and the signer are parameters.
 */
module S3 {
  import opened Wrappers
  import opened Strings
  import opened Http

  newtype byte = x: int | 0 <= x < 256

  const NotConfigured := "S3 is not configured. Please set AWS credentials in environment variables."
  const DefaultFolder := "uploads"
  const HexDigits := "0123456789abcdef"

  /** `buffer.toString('hex')`: two lower-case hex digits per byte, high nibble first. */
  function Hex(bytes: seq<byte>): (h: string)
    ensures |h| == 2 * |bytes|
    ensures forall i :: 0 <= i < |h| ==> h[i] in HexDigits
    ensures forall i :: 0 <= i < |bytes| ==>
      h[2 * i] == HexDigits[bytes[i] as int / 16] && h[2 * i + 1] == HexDigits[bytes[i] as int % 16]
    decreases |bytes|
  {
    if bytes == [] then ""
    else
      var b := bytes[0] as int;
      var rest := Hex(bytes[1..]);
      HexCons(bytes, rest);
      [HexDigits[b / 16], HexDigits[b % 16]] + rest
  }

  /** The digits of the first byte in front of the digits of the rest are the digits of all. */
  lemma HexCons(bytes: seq<byte>, rest: string)
    requires |bytes| > 0 && |rest| == 2 * (|bytes| - 1)
    requires forall i :: 0 <= i < |rest| ==> rest[i] in HexDigits
    requires forall i :: 0 <= i < |bytes| - 1 ==>
      rest[2 * i] == HexDigits[bytes[1..][i] as int / 16] && rest[2 * i + 1] == HexDigits[bytes[1..][i] as int % 16]
    ensures var h := [HexDigits[bytes[0] as int / 16], HexDigits[bytes[0] as int % 16]] + rest;
      && (forall i :: 0 <= i < |h| ==> h[i] in HexDigits)
      && (forall i :: 0 <= i < |bytes| ==>
        h[2 * i] == HexDigits[bytes[i] as int / 16] && h[2 * i + 1] == HexDigits[bytes[i] as int % 16])
  {
    var h := [HexDigits[bytes[0] as int / 16], HexDigits[bytes[0] as int % 16]] + rest;
    forall i | 1 <= i < |bytes|
      ensures h[2 * i] == HexDigits[bytes[i] as int / 16] && h[2 * i + 1] == HexDigits[bytes[i] as int % 16]
    {
      assert bytes[i] == bytes[1..][i - 1];
      assert h[2 * i] == rest[2 * (i - 1)] && h[2 * i + 1] == rest[2 * (i - 1) + 1];
    }
    assert forall i :: 2 <= i < |h| ==> h[i] == rest[i - 2];
  }

  /** `originalName.split('.').pop()`: the text after the last '.', or the whole name without one. */
  function Extension(name: string): (ext: string)
    ensures '.' !in ext
    ensures |ext| <= |name| && name[|name| - |ext|..] == ext
    ensures '.' in name ==> name[|name| - |ext| - 1] == '.'
    ensures '.' !in name ==> ext == name
  {
    var parts := Split(name, '.');
    LastPiece(name, '.');
    parts[|parts| - 1]
  }

  /** `generateFilename`: `${timestamp}-${hex of 8 random bytes}.${extension}`. */
  function Filename(timestamp: nat, random: seq<byte>, name: string): (f: string)
    requires |random| == 8
    ensures |f| == |NatToString(timestamp)| + 18 + |Extension(name)|
    ensures var d := |NatToString(timestamp)|;
      && f[..d] == NatToString(timestamp) && f[d] == '-'
      && f[d + 1..d + 17] == Hex(random) && f[d + 17] == '.'
      && f[d + 18..] == Extension(name)
  {
    NatToString(timestamp) + "-" + Hex(random) + "." + Extension(name)
  }

  predicate IsDash(c: char) {
    c == '-'
  }

  /** The stored file keeps the extension of the uploaded one. */
  lemma FilenameKeepsExtension(timestamp: nat, random: seq<byte>, name: string)
    requires |random| == 8
    ensures Extension(Filename(timestamp, random, name)) == Extension(name)
  {
    var front := NatToString(timestamp) + "-" + Hex(random);
    assert Filename(timestamp, random, name) == front + ['.'] + Extension(name);
    LastPieceAfter(front, Extension(name), '.');
  }

  /** The timestamp can be read back from a filename: the digits before its first '-'. */
  lemma FilenameTimestamp(timestamp: nat, random: seq<byte>, name: string)
    requires |random| == 8
    ensures var f := Filename(timestamp, random, name);
      var dash := FirstIndex(f, IsDash);
      && dash == |NatToString(timestamp)|
      && IsDigits(f[..dash])
      && DigitsValue(f[..dash]) == timestamp
  {
    var f := Filename(timestamp, random, name);
    var digits := NatToString(timestamp);
    FilenameStartsWithDigits(timestamp, random, name);
    DigitsThenDash(f, digits);
    NatToStringRoundTrip(timestamp);
  }

  /** A filename starts with the digits of its timestamp and then a '-'. */
  lemma FilenameStartsWithDigits(timestamp: nat, random: seq<byte>, name: string)
    requires |random| == 8
    ensures var f, digits := Filename(timestamp, random, name), NatToString(timestamp);
      && |digits| < |f|
      && f[..|digits|] == digits
      && f[|digits|] == '-'
  {
    var f, digits := Filename(timestamp, random, name), NatToString(timestamp);
    assert f[|digits|] == '-';
    assert forall i :: 0 <= i < |digits| ==> f[i] == digits[i];
  }

  /** In digits followed by a '-', the first '-' ends the digits. */
  lemma DigitsThenDash(f: string, digits: string)
    requires IsDigits(digits) && |digits| < |f|
    requires f[..|digits|] == digits && f[|digits|] == '-'
    ensures FirstIndex(f, IsDash) == |digits|
  {
    var tail := f[|digits|..];
    assert f == digits + tail;
    assert FirstIndex(tail, IsDash) == 0;
    FirstIndexAfter(digits, tail, IsDash);
  }

  /** Files named at different milliseconds get different names. */
  lemma FilenamesDifferInTime(t1: nat, t2: nat, r1: seq<byte>, r2: seq<byte>, n1: string, n2: string)
    requires |r1| == 8 && |r2| == 8 && t1 != t2
    ensures Filename(t1, r1, n1) != Filename(t2, r2, n2)
  {
    FilenameTimestamp(t1, r1, n1);
    FilenameTimestamp(t2, r2, n2);
  }

  /** Two hex digits of HexDigits are the same character only at the same position. */
  lemma HexDigitsDistinct(j: nat, k: nat)
    requires j < 16 && k < 16 && HexDigits[j] == HexDigits[k]
    ensures j == k
  {
  }

  /** Different bytes give different hex text. */
  lemma HexInjective(a: seq<byte>, b: seq<byte>)
    requires |a| == |b| && Hex(a) == Hex(b)
    ensures a == b
  {
    forall i | 0 <= i < |a|
      ensures a[i] == b[i]
    {
      var x, y := a[i] as int, b[i] as int;
      HexDigitsDistinct(x / 16, y / 16);
      HexDigitsDistinct(x % 16, y % 16);
      assert x == 16 * (x / 16) + x % 16 && y == 16 * (y / 16) + y % 16;
    }
  }

  /** The random part can be read back from a name at a position fixed by the timestamp. */
  lemma HexOfFilename(t: nat, r: seq<byte>, n: string)
    requires |r| == 8
    ensures HexPart(t, Filename(t, r, n)) == Hex(r)
  {
  }

  /** The 16 characters after the timestamp and its dash, or "" when the text is too short. */
  function HexPart(t: nat, f: string): string
  {
    var d := |NatToString(t)|;
    if d + 17 <= |f| then f[d + 1..d + 17] else ""
  }

  /**
   * Files named in the same millisecond from different random bytes get different
   * names: the random half of `generateFilename`'s uniqueness.
   */
  lemma FilenamesDifferInBytes(t: nat, r1: seq<byte>, r2: seq<byte>, n1: string, n2: string)
    requires |r1| == 8 && |r2| == 8 && r1 != r2
    ensures Filename(t, r1, n1) != Filename(t, r2, n2)
  {
    if Filename(t, r1, n1) == Filename(t, r2, n2) {
      HexOfFilename(t, r1, n1);
      HexOfFilename(t, r2, n2);
      HexInjective(r1, r2);
    }
  }

  /** `${folder}/${filename}` with `folder = 'uploads'` when the caller passes none. */
  function Key(folder: Option<string>, filename: string): (key: string)
    ensures folder.None? ==> key == DefaultFolder + "/" + filename
    ensures folder.Some? ==> key == folder.value + "/" + filename
  {
    folder.GetOr(DefaultFolder) + "/" + filename
  }

  /** The host part of an object URL: `<bucket>.s3.<region>.amazonaws.com`. */
  function Host(bucket: string, region: string): string {
    bucket + ".s3." + region + ".amazonaws.com"
  }

  /** `https://${BUCKET_NAME}.s3.${AWS_REGION}.amazonaws.com/${key}`. */
  function PublicUrl(bucket: string, region: string, key: string): (url: string)
    ensures StartsWith(url, "https://" + Host(bucket, region) + "/")
    ensures url[|Host(bucket, region)| + 9..] == key
  {
    "https://" + Host(bucket, region) + "/" + key
  }

  /** Where the URL parser ends the host of a special-scheme URL. */
  predicate EndsHost(c: char) {
    c == '/' || c == '\\' || c == '?' || c == '#'
  }

  /** Where the URL parser ends the path. */
  predicate EndsPath(c: char) {
    c == '?' || c == '#'
  }

  /** The parser reads a backslash in the path of a special-scheme URL as '/'. */
  function Slashes(s: string): (r: string)
    ensures |r| == |s|
    ensures forall i :: 0 <= i < |s| ==> r[i] == (if s[i] == '\\' then '/' else s[i])
  {
    seq(|s|, i requires 0 <= i < |s| => if s[i] == '\\' then '/' else s[i])
  }

  /**
   * `new URL(fileUrl).pathname.substring(1)` for a URL that starts with exactly `http://`
   * or `https://` and a non-empty host: the text from the end of the host up to a query
   * or fragment, backslashes read as '/', without its leading '/' (empty when there is
   * no path). Everything else is None, read as a failed parse. The parser itself accepts
   * some of those URLs: another scheme, an upper-case scheme, missing or extra slashes
   * after `https:`, and leading spaces.
   */
  function ExtractKey(url: string): (key: Option<string>)
    ensures !StartsWith(url, "https://") && !StartsWith(url, "http://") ==> key.None?
    ensures key.Some? ==> forall i :: 0 <= i < |key.value| ==> !EndsPath(key.value[i]) && key.value[i] != '\\'
  {
    var start := if StartsWith(url, "https://") then 8 else 7;
    if !StartsWith(url, "https://") && !StartsWith(url, "http://") then None
    else
      var rest := url[start..];
      var hostEnd := FirstIndex(rest, EndsHost);
      if hostEnd == 0 then None
      else
        var afterHost := rest[hostEnd..];
        var path := afterHost[..FirstIndex(afterHost, EndsPath)];
        if path == [] then Some("") else Some(Slashes(path)[1..])
  }

  /** Nothing in `s` ends the host. */
  predicate HostSafe(s: string) {
    forall i :: 0 <= i < |s| ==> !EndsHost(s[i])
  }

  /**
   * A character the URL parser copies into the path as it is: printable ASCII outside
   * the path percent-encode set, not a backslash (read as '/') and not '%' (which could
   * start an encoded dot).
   */
  predicate PathChar(c: char) {
    && '!' <= c <= '~'
    && c != '"' && c != '#' && c != '<' && c != '>' && c != '?'
    && c != '`' && c != '{' && c != '}' && c != '\\' && c != '%'
  }

  predicate PathChars(s: string) {
    forall i :: 0 <= i < |s| ==> PathChar(s[i])
  }

  /** A path segment the URL parser resolves away. */
  predicate DotSegment(seg: string) {
    seg == "." || seg == ".."
  }

  /**
   * A key the parser leaves unchanged in `pathname`: nothing is percent-encoded or read
   * as '/', and no '/'-separated segment is "." or "..".
   */
  predicate PathSafe(s: string) {
    && PathChars(s)
    && var segments := Split(s, '/');
       forall i :: 0 <= i < |segments| ==> !DotSegment(segments[i])
  }

  lemma HostIsSafe(bucket: string, region: string)
    requires HostSafe(bucket) && HostSafe(region)
    ensures HostSafe(Host(bucket, region))
  {
    var host := Host(bucket, region);
    forall i | 0 <= i < |host|
      ensures !EndsHost(host[i])
    {
      assert host[i] in bucket || host[i] in region || host[i] in ".s3." || host[i] in ".amazonaws.com";
    }
  }

  /** The path of a URL whose path is `/` then `key`, with no query or fragment. */
  lemma PathOfKey(key: string)
    requires PathChars(key)
    ensures var afterHost := "/" + key;
      afterHost[..FirstIndex(afterHost, EndsPath)] == afterHost
      && Slashes(afterHost)[1..] == key
  {
    FirstIndexAfter("/", key, EndsPath);
    assert FirstIndex(key, EndsPath) == |key|;
  }

  /**
   * Deleting by the URL an upload returned targets the object the upload created: the
   * key read back from the public URL is the key it was built from.
   */
  lemma ExtractKeyRoundTrip(bucket: string, region: string, key: string)
    requires HostSafe(bucket) && HostSafe(region) && PathSafe(key)
    ensures ExtractKey(PublicUrl(bucket, region, key)) == Some(key)
  {
    var host := Host(bucket, region);
    var url := PublicUrl(bucket, region, key);
    var rest := url[8..];
    assert StartsWith(url, "https://") && rest == host + ("/" + key);
    assert FirstIndex(rest, EndsHost) == |host| > 0 by {
      HostIsSafe(bucket, region);
      FirstIndexAfter(host, "/" + key, EndsHost);
    }
    assert rest[|host|..] == "/" + key;
    PathOfKey(key);
  }

  lemma PathCharsConcat(a: string, b: string)
    requires PathChars(a) && PathChars(b)
    ensures PathChars(a + b)
  {
    forall i | 0 <= i < |a + b|
      ensures PathChar((a + b)[i])
    {
      if i < |a| {
        assert (a + b)[i] == a[i];
      } else {
        assert (a + b)[i] == b[i - |a|];
      }
    }
  }

  lemma ExtensionChars(name: string)
    requires PathChars(name)
    ensures PathChars(Extension(name))
  {
    var ext := Extension(name);
    forall i | 0 <= i < |ext|
      ensures PathChar(ext[i])
    {
      assert ext[i] == name[|name| - |ext| + i];
    }
  }

  lemma DigitChars(s: string)
    requires IsDigits(s)
    ensures PathChars(s)
  {
  }

  lemma HexChars(bytes: seq<byte>)
    ensures PathChars(Hex(bytes))
  {
    var h := Hex(bytes);
    forall i | 0 <= i < |h|
      ensures PathChar(h[i])
    {
      HexDigitIsPathChar(h[i]);
    }
  }

  lemma HexDigitIsPathChar(c: char)
    requires c in HexDigits
    ensures PathChar(c)
  {
    var k :| 0 <= k < |HexDigits| && HexDigits[k] == c;
    assert '0' <= c <= '9' || 'a' <= c <= 'f' by {
      if k < 10 {
        assert HexDigits[..10] == "0123456789";
        assert c == "0123456789"[k];
      } else {
        assert HexDigits[10..] == "abcdef";
        assert c == "abcdef"[k - 10];
      }
    }
  }

  /** Every file name `generateFilename` makes from a name of path characters is made of path characters. */
  lemma FilenameChars(timestamp: nat, random: seq<byte>, name: string)
    requires |random| == 8 && PathChars(name)
    ensures PathChars(Filename(timestamp, random, name))
  {
    var digits, hex, ext := NatToString(timestamp), Hex(random), Extension(name);
    assert PathChars(digits) by { DigitChars(digits); }
    assert PathChars(hex) by { HexChars(random); }
    assert PathChars(ext) by { ExtensionChars(name); }
    assert Filename(timestamp, random, name) == digits + "-" + hex + "." + ext;
    FilenameShapeChars(digits, hex, ext);
  }

  lemma FilenameShapeChars(digits: string, hex: string, ext: string)
    requires PathChars(digits) && PathChars(hex) && PathChars(ext)
    ensures PathChars(digits + "-" + hex + "." + ext)
  {
    assert PathChars("-") && PathChars(".");
    PathCharsConcat(digits, "-");
    PathCharsConcat(digits + "-", hex);
    PathCharsConcat(digits + "-" + hex, ".");
    PathCharsConcat(digits + "-" + hex + ".", ext);
  }

  /** A file name is one path segment, and not a dot segment: it starts with a digit. */
  lemma FilenameSegment(timestamp: nat, random: seq<byte>, name: string)
    requires |random| == 8 && '/' !in name
    ensures var f := Filename(timestamp, random, name);
      '/' !in f && !DotSegment(f)
  {
    var f := Filename(timestamp, random, name);
    var digits, hex, ext := NatToString(timestamp), Hex(random), Extension(name);
    assert f == digits + "-" + hex + "." + ext;
    assert '0' <= f[0] <= '9' by {
      assert f[0] == digits[0];
    }
    assert '/' !in ext by {
      forall i | 0 <= i < |ext|
        ensures ext[i] != '/'
      {
        assert ext[i] == name[|name| - |ext| + i];
      }
    }
    assert forall i :: 0 <= i < |hex| ==> hex[i] in HexDigits;
    assert forall i :: 0 <= i < |digits| ==> '0' <= digits[i] <= '9';
    FilenameNoSlash(digits, hex, ext);
  }

  lemma FilenameNoSlash(digits: string, hex: string, ext: string)
    requires forall i :: 0 <= i < |digits| ==> '0' <= digits[i] <= '9'
    requires forall i :: 0 <= i < |hex| ==> hex[i] in HexDigits
    requires '/' !in ext
    ensures '/' !in digits + "-" + hex + "." + ext
  {
    var f := digits + "-" + hex + "." + ext;
    forall i | 0 <= i < |f|
      ensures f[i] != '/'
    {
      if i < |digits| {
        assert f[i] == digits[i];
      } else if |digits| + 1 <= i < |digits| + 1 + |hex| {
        assert f[i] == hex[i - |digits| - 1];
      } else if i >= |digits| + 2 + |hex| {
        assert f[i] == ext[i - |digits| - 2 - |hex|];
      }
    }
  }

  /** Text without the separator is a single piece. */
  lemma SplitNoSep(s: string, sep: char)
    requires sep !in s
    ensures Split(s, sep) == [s]
  {
    SplitPrefix(s, "", sep);
    assert s + "" == s;
    assert Split("", sep) == [""];
  }

  /** A key `folder/filename` is safe when the folder is and the file name is one ordinary segment. */
  lemma KeySegments(folder: string, f: string)
    requires PathSafe(folder) && PathChars(f) && '/' !in f && !DotSegment(f)
    ensures PathSafe(folder + "/" + f)
  {
    PathCharsConcat(folder, "/");
    PathCharsConcat(folder + "/", f);
    assert folder + "/" + f == folder + ['/'] + f;
    SplitAtSep(folder, f, '/');
    SplitNoSep(f, '/');
    var segments := Split(folder + "/" + f, '/');
    assert segments == Split(folder, '/') + [f];
  }

  /**
   * Every key built under a safe folder from an original name of path characters without
   * a '/' is one the URL parser leaves unchanged.
   */
  lemma KeyIsPathSafe(folder: Option<string>, timestamp: nat, random: seq<byte>, name: string)
    requires |random| == 8
    requires PathSafe(folder.GetOr(DefaultFolder)) && PathChars(name) && '/' !in name
    ensures PathSafe(Key(folder, Filename(timestamp, random, name)))
  {
    var f := Filename(timestamp, random, name);
    FilenameChars(timestamp, random, name);
    FilenameSegment(timestamp, random, name);
    KeySegments(folder.GetOr(DefaultFolder), f);
  }

  /**
   * The URL `uploadToS3` and `generatePresignedUrl` hand out leads `deleteFromS3` back to
   * the same key, for a safe folder and an original name of printable ASCII outside the
   * path percent-encode set, without '%' or '/'.
   */
  lemma UploadedUrlDeletesSameKey(bucket: string, region: string, folder: Option<string>,
                                  timestamp: nat, random: seq<byte>, name: string)
    requires |random| == 8
    requires HostSafe(bucket) && HostSafe(region)
    requires PathSafe(folder.GetOr(DefaultFolder)) && PathChars(name) && '/' !in name
    ensures var key := Key(folder, Filename(timestamp, random, name));
      ExtractKey(PublicUrl(bucket, region, key)) == Some(key)
  {
    KeyIsPathSafe(folder, timestamp, random, name);
    ExtractKeyRoundTrip(bucket, region, Key(folder, Filename(timestamp, random, name)));
  }

  datatype Client = Client(region: string, accessKeyId: string, secretAccessKey: string)

  /** The `PutObjectCommand` and `DeleteObjectCommand` requests. */
  datatype PutObject = PutObject(bucket: string, key: string, contentType: string)
  datatype DeleteObject = DeleteObject(bucket: string, key: string)

  /** What `generatePresignedUrl` returns. */
  datatype Presigned = Presigned(uploadUrl: string, fileUrl: string, key: string)

  /** The environment's four AWS settings, each possibly unset. */
  datatype Env = Env(accessKeyId: Option<string>, secretAccessKey: Option<string>,
                     bucket: Option<string>, region: Option<string>)

  /** `isS3Configured`: all four settings are non-empty. */
  predicate Configured(env: Env) {
    Present(env.accessKeyId) && Present(env.secretAccessKey) && Present(env.bucket) && Present(env.region)
  }

  /** The module's state: the environment it was loaded with and the lazily created client. */
  class S3Module {
    const env: Env
    var s3Client: Option<Client>
    ghost var created: nat

    /** At most one client is ever created, and it is the one cached. */
    ghost predicate Valid()
      reads this
    {
      && created <= 1
      && (s3Client.Some? <==> created == 1)
      && (s3Client.Some? ==> Configured(env))
    }

    constructor (e: Env)
      ensures env == e && s3Client.None? && created == 0 && Valid()
    {
      env := e;
      s3Client := None;
      created := 0;
    }

    /**
     * `initS3`: fails when S3 is not configured; otherwise creates the client on the
     * first call and returns the same cached client on every later one.
     */
    method Init() returns (r: Result<Client, string>)
      requires Valid()
      modifies this
      ensures Valid()
      ensures !Configured(env) ==> r == Failure(NotConfigured) && s3Client == old(s3Client) && created == old(created)
      ensures Configured(env) ==> r.Success? && s3Client == Some(r.value)
      ensures old(s3Client).Some? ==> s3Client == old(s3Client) && created == old(created)
      ensures Configured(env) && old(s3Client).None? ==>
        r.value == Client(env.region.value, env.accessKeyId.value, env.secretAccessKey.value)
    {
      if !Configured(env) {
        return Failure(NotConfigured);
      }
      if s3Client.None? {
        s3Client := Some(Client(env.region.value, env.accessKeyId.value, env.secretAccessKey.value));
        created := created + 1;
      }
      r := Success(s3Client.value);
    }

    /**
     * `uploadToS3`: the object is put under `folder/filename` and its public URL is
     * returned; a failed put is the error of `send`.
     */
    method Upload(folder: Option<string>, fileName: string, contentType: string,
                  timestamp: nat, random: seq<byte>, send: Outcome<()>)
      returns (request: Option<PutObject>, r: Result<string, string>)
      requires Valid() && |random| == 8
      modifies this
      ensures Valid()
      ensures old(s3Client).Some? ==> s3Client == old(s3Client) && created == old(created)
      ensures Configured(env) ==> s3Client.Some?
      ensures !Configured(env) ==> request.None? && r == Failure(NotConfigured)
      ensures Configured(env) ==>
        var key := Key(folder, Filename(timestamp, random, fileName));
        && request == Some(PutObject(env.bucket.value, key, contentType))
        && (send.Ok? ==> r == Success(PublicUrl(env.bucket.value, env.region.value, key)))
        && (send.Err? ==> r == Failure(send.message))
    {
      var client := Init();
      if client.Failure? {
        return None, Failure(client.error);
      }
      var key := Key(folder, Filename(timestamp, random, fileName));
      request := Some(PutObject(env.bucket.value, key, contentType));
      match send {
        case Ok(_) => r := Success(PublicUrl(env.bucket.value, env.region.value, key));
        case Err(message) => r := Failure(message);
      }
    }

    /**
     * `deleteFromS3`: without configuration nothing is sent and the call succeeds;
     * otherwise the key read out of the URL is deleted. A URL the model cannot parse
     * fails with "Invalid URL".
     */
    method Delete(fileUrl: string, send: Outcome<()>) returns (request: Option<DeleteObject>, r: Result<(), string>)
      requires Valid()
      modifies this
      ensures Valid()
      ensures old(s3Client).Some? ==> s3Client == old(s3Client) && created == old(created)
      ensures Configured(env) ==> s3Client.Some?
      ensures !Configured(env) ==> request.None? && r == Success(()) && s3Client == old(s3Client)
      ensures Configured(env) && ExtractKey(fileUrl).None? ==> request.None? && r == Failure("Invalid URL")
      ensures Configured(env) && ExtractKey(fileUrl).Some? ==>
        && request == Some(DeleteObject(env.bucket.value, ExtractKey(fileUrl).value))
        && (send.Ok? ==> r == Success(()))
        && (send.Err? ==> r == Failure(send.message))
    {
      if !Configured(env) {
        return None, Success(());
      }
      var client := Init();
      var key := ExtractKey(fileUrl);
      if key.None? {
        return None, Failure("Invalid URL");
      }
      request := Some(DeleteObject(env.bucket.value, key.value));
      match send {
        case Ok(_) => r := Success(());
        case Err(message) => r := Failure(message);
      }
    }

    /**
     * `generatePresignedUrl`: a fresh key under `folder`, the URL the signer returned for
     * putting it, and the public URL it will have.
     */
    method PresignedUrl(fileName: string, contentType: string, folder: Option<string>,
                        timestamp: nat, random: seq<byte>, signedUrl: string)
      returns (request: Option<PutObject>, r: Result<Presigned, string>)
      requires Valid() && |random| == 8
      modifies this
      ensures Valid()
      ensures old(s3Client).Some? ==> s3Client == old(s3Client) && created == old(created)
      ensures Configured(env) ==> s3Client.Some?
      ensures !Configured(env) ==> request.None? && r == Failure(NotConfigured)
      ensures Configured(env) ==>
        var key := Key(folder, Filename(timestamp, random, fileName));
        && request == Some(PutObject(env.bucket.value, key, contentType))
        && r == Success(Presigned(signedUrl, PublicUrl(env.bucket.value, env.region.value, key), key))
    {
      var client := Init();
      if client.Failure? {
        return None, Failure(client.error);
      }
      var key := Key(folder, Filename(timestamp, random, fileName));
      request := Some(PutObject(env.bucket.value, key, contentType));
      r := Success(Presigned(signedUrl, PublicUrl(env.bucket.value, env.region.value, key), key));
    }
  }
}

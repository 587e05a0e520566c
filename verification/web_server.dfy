/**
 * The request helpers of the web server: the content type chosen from a
 * file extension, the file path built from a request URI, the normalised
 * status code of a JSON response, and the pieces of the P1 JSON document
 * that are computed rather than copied (the maximum-demand-year list and
 * the breaker-state string).
 *
 * C strings are modelled as `seq<char>` without their terminating NUL;
 * the path buffer is an `array<char>` that does hold the terminator.
 */
module WebServer {
  import opened P1Types

  datatype Option<T> = None | Some(value: T)

  /** The extensions the server recognises and the content types it sends
      for them. */
  const MimeTypes: map<string, string> := map[
    "html" := "text/html",
    "css" := "text/css",
    "js" := "application/javascript",
    "png" := "image/png",
    "jpg" := "image/jpeg",
    "ico" := "image/x-icon",
    "svg" := "image/svg+xml",
    "json" := "application/json",
    "csv" := "text/csv"
  ]

  /** `set_content_type_from_file_ext`: a chain of exact comparisons, with
      `text/plain` for anything unrecognised. */
  function ContentTypeFromFileExt(ext: string): (t: string)
    ensures ext in MimeTypes ==> t == MimeTypes[ext]
    ensures ext !in MimeTypes ==> t == "text/plain"
  {
    if ext == "html" then "text/html"
    else if ext == "css" then "text/css"
    else if ext == "js" then "application/javascript"
    else if ext == "png" then "image/png"
    else if ext == "jpg" then "image/jpeg"
    else if ext == "ico" then "image/x-icon"
    else if ext == "svg" then "image/svg+xml"
    else if ext == "json" then "application/json"
    else if ext == "csv" then "text/csv"
    else "text/plain"
  }

  /** `strrchr`: the index of the last occurrence of `c` in `s`. */
  function LastIndexOf(s: string, c: char): (r: Option<nat>)
    ensures r.None? <==> c !in s
    ensures r.Some? ==> r.value < |s| && s[r.value] == c && c !in s[r.value + 1..]
    decreases |s|
  {
    if s == [] then None
    else if s[|s| - 1] == c then Some(|s| - 1)
    else
      var r := LastIndexOf(s[..|s| - 1], c);
      assert s == s[..|s| - 1] + [s[|s| - 1]];
      if r.Some? then
        assert s[r.value + 1..] == s[..|s| - 1][r.value + 1..] + [s[|s| - 1]];
        r
      else r
  }

  /** The text after the last `.` of a path, if there is one. */
  function FileExtension(path: string): (r: Option<string>)
    ensures r.None? <==> '.' !in path
    ensures r.Some? ==> && '.' !in r.value && |r.value| < |path|
                        && path[|path| - |r.value| - 1] == '.'
                        && path[|path| - |r.value|..] == r.value
  {
    match LastIndexOf(path, '.')
    case None => None
    case Some(i) => Some(path[i + 1..])
  }

  /** The content type `frontend_get_handler` sets for a file path: looked
      up from the extension, or `text/plain` when the path has no `.`. */
  function ContentTypeOfPath(path: string): (t: string)
    ensures '.' !in path ==> t == "text/plain"
  {
    match FileExtension(path)
    case None => "text/plain"
    case Some(ext) => ContentTypeFromFileExt(ext)
  }

  /** The extension is taken after the LAST `.`, wherever it is in the path:
      a path `p.e` where `e` holds no `.` gets the type of `e`. */
  lemma ContentTypeOfSplit(p: string, e: string)
    requires '.' !in e
    ensures ContentTypeOfPath(p + ['.'] + e) == ContentTypeFromFileExt(e)
  {
    var path := p + ['.'] + e;
    assert path[|p|] == '.';
    var i := LastIndexOf(path, '.').value;
    assert path[i + 1..] == e;
  }

  /** `strlcat(dst, src, size)` for a destination of `|dst| < size`
      characters: appends as much of `src` as fits in `size` bytes together
      with the terminator. */
  function Strlcat(dst: string, src: string, size: nat): (r: string)
    requires |dst| < size && '\0' !in src
    ensures |r| == Min(|dst| + |src|, size - 1)
    ensures r <= dst + src
  {
    dst + src[..Min(|src|, size - 1 - |dst|)]
  }

  /** The file-system mount point of the served files (`/www`). */
  const MountPoint: string := "/www"

  /** The file served for a URI that names a directory. */
  const IndexFile: string := "/index.html"

  /** What the handler appends to the mount point for `uri`. */
  function RequestedFile(uri: string): string
    requires 0 < |uri| && '\0' !in uri
  {
    if uri[|uri| - 1] == '/' then IndexFile else uri
  }

  /** The path `frontend_get_handler` builds in a buffer of `bufSize`
      bytes: the mount point followed by the requested file, cut short to
      fit the buffer. */
  function FrontendFilePathOf(uri: string, bufSize: nat): (p: string)
    requires 0 < |uri| && '\0' !in uri && |MountPoint| < bufSize
    ensures MountPoint <= p && |p| < bufSize
    ensures p <= MountPoint + RequestedFile(uri)
    ensures |MountPoint + RequestedFile(uri)| < bufSize ==> p == MountPoint + RequestedFile(uri)
    ensures |MountPoint + RequestedFile(uri)| >= bufSize ==> |p| == bufSize - 1
  {
    Strlcat(MountPoint, RequestedFile(uri), bufSize)
  }

  /** A URI naming a directory is served `index.html` as HTML, provided the
      path buffer holds `/www/index.html`. */
  lemma DirectoryServesHtml(uri: string, bufSize: nat)
    requires 0 < |uri| && '\0' !in uri && uri[|uri| - 1] == '/'
    requires |MountPoint + IndexFile| < bufSize
    ensures ContentTypeOfPath(FrontendFilePathOf(uri, bufSize)) == "text/html"
  {
    assert FrontendFilePathOf(uri, bufSize) == "/www/index" + ['.'] + "html";
    ContentTypeOfSplit("/www/index", "html");
  }

  /** `strlcat` on a buffer whose string occupies its first `len` bytes:
      copies as much of `src` as fits and writes the terminator after it. */
  method StrlcatInto(buf: array<char>, len: nat, src: string) returns (newLen: nat)
    requires len < buf.Length && '\0' !in src
    modifies buf
    ensures newLen < buf.Length && buf[newLen] == '\0'
    ensures buf[..newLen] == Strlcat(old(buf[..len]), src, buf.Length)
    ensures buf[newLen + 1..] == old(buf[newLen + 1..])
  {
    var n := Min(|src|, buf.Length - 1 - len);
    var i := 0;
    while i < n
      invariant 0 <= i <= n
      invariant buf[..len] == old(buf[..len])
      invariant buf[len..len + i] == src[..i]
      invariant buf[len + n..] == old(buf[len + n..])
    {
      buf[len + i] := src[i];
      i := i + 1;
    }
    buf[len + n] := '\0';
    newLen := len + n;
    assert buf[..newLen] == buf[..len] + buf[len..len + n];
  }

  /** The path building of `frontend_get_handler`: `strcpy` of the mount
      point, then `strlcat` of `/index.html` or of the URI. Returns the
      length of the string in `filepath`. */
  method FrontendFilePath(uri: string, filepath: array<char>) returns (len: nat)
    requires 0 < |uri| && '\0' !in uri && |MountPoint| < filepath.Length
    modifies filepath
    ensures len < filepath.Length && filepath[len] == '\0'
    ensures filepath[..len] == FrontendFilePathOf(uri, filepath.Length)
  {
    len := StrlcatInto(filepath, 0, MountPoint);
    assert filepath[..len] == MountPoint;
    if uri[|uri| - 1] == '/' {
      len := StrlcatInto(filepath, len, IndexFile);
    } else {
      len := StrlcatInto(filepath, len, uri);
    }
  }

  /** The status-code check of `send_json_response`: 0 and codes above 999
      become 200; every other code is kept. */
  function NormalizeStatusCode(code: uint16): (r: uint16)
    ensures 1 <= r <= 999
    ensures 1 <= code <= 999 ==> r == code
    ensures (code == 0 || code > 999) ==> r == 200
  {
    if code == 0 || code > 999 then 200 else code
  }

  function DigitChar(d: nat): char
    requires d < 10
  {
    (d + '0' as int) as char
  }

  /** `sprintf("%d")` of a non-negative number. */
  function DecimalString(n: nat): (s: string)
    ensures 0 < |s|
    ensures forall i :: 0 <= i < |s| ==> '0' <= s[i] <= '9'
    decreases n
  {
    if n < 10 then [DigitChar(n)] else DecimalString(n / 10) + [DigitChar(n % 10)]
  }

  /** The number a string of decimal digits denotes. */
  function DecimalValue(s: string): nat
    requires forall i :: 0 <= i < |s| ==> '0' <= s[i] <= '9'
    decreases |s|
  {
    if s == [] then 0
    else 10 * DecimalValue(s[..|s| - 1]) + (s[|s| - 1] as int - '0' as int)
  }

  /** The decimal text denotes the number it was printed from. */
  lemma {:induction false} DecimalRoundTrip(n: nat)
    ensures DecimalValue(DecimalString(n)) == n
    decreases n
  {
    var s := DecimalString(n);
    if n >= 10 {
      DecimalRoundTrip(n / 10);
      assert s[..|s| - 1] == DecimalString(n / 10);
    }
  }

  /** Numbers below 1000 print in at most three digits. */
  lemma {:induction false} DecimalLength(n: nat)
    requires n < 1000
    ensures |DecimalString(n)| <= 3
  {
    if n >= 10 {
      DecimalLength(n / 10);
      if n / 10 < 10 {
        assert |DecimalString(n / 10)| == 1;
      } else {
        assert |DecimalString(n / 100)| == 1;
      }
    }
  }

  /** The status text written into `status_code_str[6]`: it reads back as
      the normalised code and, with its terminator, fits the buffer. */
  function StatusCodeString(code: uint16): (s: string)
    ensures 1 <= |s| <= 3 && |s| + 1 <= 6
    ensures forall i :: 0 <= i < |s| ==> '0' <= s[i] <= '9'
    ensures DecimalValue(s) == NormalizeStatusCode(code) as int
  {
    var r := NormalizeStatusCode(code) as nat;
    DecimalRoundTrip(r);
    DecimalLength(r);
    DecimalString(r)
  }

  /** The `maxDemandYear` loop of `get_p1_data_in_json`: the entries of the
      13-entry array up to, not including, the first whose timestamp is 0. */
  method MaxDemandYearList(year: seq<MaxDemandRecord>) returns (list: seq<MaxDemandRecord>)
    requires |year| == MaxDemandYearLength
    ensures |list| <= |year| && list == year[..|list|]
    ensures forall i :: 0 <= i < |list| ==> list[i].timestampAppearance != 0
    ensures |list| < MaxDemandYearLength ==> year[|list|].timestampAppearance == 0
  {
    list := [];
    var i := 0;
    while i < MaxDemandYearLength
      invariant 0 <= i <= MaxDemandYearLength
      invariant list == year[..i]
      invariant forall k :: 0 <= k < i ==> year[k].timestampAppearance != 0
    {
      if year[i].timestampAppearance == 0 {
        break;
      }
      list := list + [year[i]];
      i := i + 1;
    }
  }

  /** The `breakerState` string of the JSON document; a value outside the
      three named states adds no member. */
  function BreakerStateJson(b: BreakerState): (r: Option<string>)
    ensures r.None? <==> b.Unlisted?
  {
    match b
    case Disconnected => Some("disconnected")
    case Connected => Some("connected")
    case ReadyForConnection => Some("readyForConnection")
    case Unlisted(_) => None
  }

  /** The breaker state a client reads back from the string. */
  function BreakerStateFromJson(s: string): (r: Option<BreakerState>)
    ensures r.Some? ==> !r.value.Unlisted?
  {
    if s == "disconnected" then Some(Disconnected)
    else if s == "connected" then Some(Connected)
    else if s == "readyForConnection" then Some(ReadyForConnection)
    else None
  }

  /** The mapping is one-to-one: the string identifies the state. */
  lemma BreakerStateRoundTrip(b: BreakerState, s: string)
    ensures BreakerStateJson(b) == Some(s) <==> (BreakerStateFromJson(s) == Some(b))
  {
  }
}

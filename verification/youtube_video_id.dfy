/**
 * `extrair_video_id` of `youtube_tool.py`: the eleven-character video id
 * of a YouTube address, chosen by the shape of the address.
 */
module VideoId {
  import opened Wrappers
  import opened Text

  const IdLength: nat := 11

  /** `[A-Za-z0-9_-]`. */
  predicate IdChar(c: char)
  {
    'A' <= c <= 'Z' || 'a' <= c <= 'z' || '0' <= c <= '9' || c == '_' || c == '-'
  }

  /** A well-formed video id: eleven id characters. */
  predicate IsId(s: string) { |s| == IdLength && forall i :: 0 <= i < |s| ==> IdChar(s[i]) }

  /**
   * What the function reads from `urlparse(url.strip())` and `parse_qs`:
   * the host name (`None` when there is none), the path, and the values
   * the query gives `v`, in order.
   */
  datatype UrlParts = UrlParts(hostname: Option<string>, path: string, v: seq<string>)

  const YouTubeHosts: set<string> := {"www.youtube.com", "youtube.com", "m.youtube.com"}

  const ShortHost: string := "youtu.be"

  /** Eleven id characters start at `i` of `s`. */
  predicate IsRun(s: string, i: nat)
  {
    i + IdLength <= |s| && forall j :: i <= j < i + IdLength ==> IdChar(s[j])
  }

  /** The leftmost position, from `from` on, where eleven id characters start. */
  function FirstRun(s: string, from: nat): (r: Option<nat>)
    ensures r.Some? ==> from <= r.value && IsRun(s, r.value)
    ensures r.Some? ==> forall j :: from <= j < r.value ==> !IsRun(s, j)
    ensures r.None? ==> forall j :: from <= j ==> !IsRun(s, j)
    decreases |s| - from
  {
    if from + IdLength > |s| then None
    else if IsRun(s, from) then Some(from)
    else FirstRun(s, from + 1)
  }

  /** `re.search(r"[A-Za-z0-9_-]{11}", url)`: the leftmost run of eleven id characters. */
  function SearchId(url: string): (r: Option<string>)
    ensures r.Some? ==> IsId(r.value)
    ensures r.Some? ==>
      exists i: nat :: (IsRun(url, i) && url[i..i + IdLength] == r.value && forall j :: 0 <= j < i ==> !IsRun(url, j))
    ensures r.None? <==> forall i: nat :: !IsRun(url, i)
  {
    var p := FirstRun(url, 0);
    if p.None? then None
    else
      var i := p.value;
      RunIsId(url, i);
      Some(url[i..i + IdLength])
  }

  /** The eleven characters of a run make an id. */
  lemma RunIsId(s: string, at: nat)
    requires IsRun(s, at)
    ensures IsId(s[at..at + IdLength])
  {
    var w := s[at..at + IdLength];
    forall k | 0 <= k < |w|
      ensures IdChar(w[k])
    {
      assert w[k] == s[at + k];
    }
  }

  predicate StartsWith(s: string, p: string) { |p| <= |s| && s[..|p|] == p }

  /** The id characters at `at`, when there are eleven of them. */
  function IdAt(path: string, at: nat): Option<string>
  {
    if IsRun(path, at) then Some(path[at..at + IdLength]) else None
  }

  /** `re.match(r"/(embed|shorts|v)/([A-Za-z0-9_-]{11})", path)`, group 2. */
  function EmbeddedId(path: string): Option<string>
  {
    if StartsWith(path, "/embed/") then IdAt(path, 7)
    else if StartsWith(path, "/shorts/") then IdAt(path, 8)
    else if StartsWith(path, "/v/") then IdAt(path, 3)
    else None
  }

  /** `s[:n]`. */
  function Take(s: string, n: nat): (r: string)
    ensures |r| <= n && |r| <= |s| && r == s[..|r|]
    ensures |s| >= n ==> |r| == n
    ensures |s| <= n ==> r == s
  {
    if |s| <= n then s else s[..n]
  }

  /** `parsed.path.lstrip("/")[:11]`. */
  function ShortLinkId(path: string): string
  {
    Take(TrimStart(path, OneOf({'/'})), IdLength)
  }

  /**
   * `extrair_video_id`: on a YouTube host, the first `v` of a `/watch`
   * page or the id of an embed, shorts or `/v/` path; on `youtu.be`, the
   * path after its slashes, cut to eleven characters; otherwise, and on a
   * YouTube host whose path is neither, the first run of eleven id
   * characters anywhere in the address as given.
   */
  function ExtractVideoId(url: string, parts: UrlParts): (r: Option<string>)
    ensures IsWatch(parts) ==> r == (if parts.v == [] then None else Some(parts.v[0]))
    ensures IsYouTube(parts) && !IsWatch(parts) && EmbeddedId(parts.path).Some? ==> r == EmbeddedId(parts.path)
    ensures parts.hostname == Some(ShortHost) ==> r == Some(Take(TrimStart(parts.path, OneOf({'/'})), IdLength))
    ensures parts.hostname == Some(ShortHost) ==> |r.value| <= IdLength && (r.value == [] || r.value[0] != '/')
    ensures !IsYouTube(parts) && parts.hostname != Some(ShortHost) ==> r == SearchId(url)
    ensures IsYouTube(parts) && !IsWatch(parts) && EmbeddedId(parts.path).None? ==> r == SearchId(url)
    ensures !IsWatch(parts) && parts.hostname != Some(ShortHost) && r.Some? ==> IsId(r.value)
  {
    if parts.hostname.Some? && parts.hostname.value in YouTubeHosts then
      if parts.path == "/watch" then
        if parts.v == [] then None else Some(parts.v[0])
      else
        var embedded := EmbeddedId(parts.path);
        if embedded.Some? then EmbeddedIdIsId(parts.path); embedded
        else SearchId(url)
    else if parts.hostname == Some(ShortHost) then Some(ShortLinkId(parts.path))
    else SearchId(url)
  }

  /** An address on one of the YouTube hosts. */
  predicate IsYouTube(parts: UrlParts)
  {
    parts.hostname.Some? && parts.hostname.value in YouTubeHosts
  }

  /** A `/watch` page on one of the YouTube hosts. */
  predicate IsWatch(parts: UrlParts)
  {
    IsYouTube(parts) && parts.path == "/watch"
  }

  lemma EmbeddedIdIsId(path: string)
    ensures EmbeddedId(path).Some? ==> IsId(EmbeddedId(path).value)
  {
    if StartsWith(path, "/embed/") {
      if IsRun(path, 7) { RunIsId(path, 7); }
    } else if StartsWith(path, "/shorts/") {
      if IsRun(path, 8) { RunIsId(path, 8); }
    } else if StartsWith(path, "/v/") {
      if IsRun(path, 3) { RunIsId(path, 3); }
    }
  }

  /** An embed, shorts or `/v/` address of a YouTube host gives back the id it was built from. */
  lemma EmbedRoundTrip(url: string, host: string, kind: string, id: string, rest: string, v: seq<string>)
    requires host in YouTubeHosts
    requires kind == "embed" || kind == "shorts" || kind == "v"
    requires IsId(id)
    ensures ExtractVideoId(url, UrlParts(Some(host), "/" + kind + "/" + id + rest, v)) == Some(id)
  {
    var prefix := "/" + kind + "/";
    var path := prefix + id + rest;
    assert path[..|prefix|] == prefix;
    assert path[|prefix|..|prefix| + IdLength] == id;
    assert IsRun(path, |prefix|) by {
      forall j | |prefix| <= j < |prefix| + IdLength ensures IdChar(path[j]) {
        assert path[j] == id[j - |prefix|];
      }
    }
    if kind == "embed" {
      assert StartsWith(path, "/embed/");
    } else if kind == "shorts" {
      assert path[1] == 's';
      assert StartsWith(path, "/shorts/");
    } else {
      assert path[1] == 'v';
      assert StartsWith(path, "/v/");
    }
  }

  /** A `youtu.be` address gives back the id it was built from, whatever follows it. */
  lemma ShortLinkRoundTrip(url: string, id: string, rest: string, v: seq<string>)
    requires IsId(id)
    ensures ExtractVideoId(url, UrlParts(Some(ShortHost), "/" + id + rest, v)) == Some(id)
  {
    var path := "/" + id + rest;
    assert path[1..] == id + rest;
    assert TrimStart(path, OneOf({'/'})) == TrimStart(id + rest, OneOf({'/'}));
    assert (id + rest)[0] == id[0];
    assert TrimStart(id + rest, OneOf({'/'})) == id + rest;
    assert (id + rest)[..IdLength] == id;
  }
}

/**
 * The media and grammar resolvers of helpers.py, `get_resource` and
 * `get_grammar_resource`. The HTTP exchanges with the cache service and
 * with the grammar's own URL are inputs: what the CacheType lookup answered
 * and what a fetch returned. Every exception the source catches is one of
 * these failure inputs or a missing key of the cache settings.
 */
module Resources {
  import opened Text
  import opened StringHelpers

  /** `socket.cache`: the cache settings. The empty map stands for both None and {}. */
  type CacheSettings = map<string, string>

  /** The answer to `<cache url>/CacheType/?url=...`: the reported kind, or any
      failure on the way (no connection, a body that is not JSON, no 'CacheType'). */
  datatype CacheReply = CacheType(kind: string) | LookupFailed

  /** The outcome of reading a URL: its body, or an exception. */
  datatype Fetched = Body(data: string) | ReadFailed

  /** What `get_grammar_resource` returns: the grammar text, None or False. */
  datatype GrammarResult = Grammar(text: string) | NoGrammar | GrammarFailed

  /** The remote test of both resolvers: http:// or https:// in any letter case. */
  predicate IsRemote(url: string) {
    Lower(Take(url, 7)) == "http://" || Lower(Take(url, 8)) == "https://"
  }

  /** The remote test is `is_valid_url` applied to the lower-cased value. */
  lemma IsRemoteIgnoresCase(url: string)
    ensures IsRemote(url) <==> IsValidUrl(Lower(url))
  {
    assert Lower(Take(url, 7)) == Take(Lower(url), 7);
    assert Lower(Take(url, 8)) == Take(Lower(url), 8);
  }

  /** `cache_url`: the configured cache URL without surrounding slashes. */
  function CacheBase(cache: CacheSettings): string
    requires "url" in cache
  {
    StripSlashes(cache["url"])
  }

  /**
   * The cached copy's address. The wav cache form hands it to the retrieval
   * script; for grammars, the `cached` input of GetGrammarResource stands for
   * the read of this address.
   */
  function CachedUrl(cache: CacheSettings, query: string): string
    requires "url" in cache
  {
    CacheBase(cache) + "/Cache/?" + query
  }

  /**
   * The tail of `get_resource`, reached when the cache did not rewrite the
   * URL: a remote URL not ending in ".wav" becomes `shout://` followed by what
   * comes after its scheme; everything else is kept.
   */
  function StreamFallback(url: string): (r: string)
    ensures !IsRemote(url) ==> r == url
    ensures EndsWith(url, ".wav") ==> r == url
    ensures IsRemote(url) && !EndsWith(url, ".wav") ==>
              && r == "shout://" + url[SchemeLength(url)..]
              && IsValidSoundProto(r)
  {
    TailIsSuffixTest(url, ".wav");
    if Lower(Take(url, 7)) == "http://" then
      if Tail(url, 4) != ".wav" then "shout://" + Drop(url, 7) else url
    else if Lower(Take(url, 8)) == "https://" then
      if Tail(url, 4) != ".wav" then "shout://" + Drop(url, 8) else url
    else url
  }

  /** The length of the scheme a remote URL starts with: 7 for http://, 8 for https://, in any letter case. */
  function SchemeLength(url: string): (n: nat)
    requires IsRemote(url)
    ensures n <= |url|
    ensures Lower(url[..n]) == "http://" || Lower(url[..n]) == "https://"
    ensures n == 7 <==> Lower(url[..n]) == "http://"
    ensures n == 8 <==> Lower(url[..n]) == "https://"
  {
    if Lower(Take(url, 7)) == "http://" then 7 else 8
  }

  /** The result of the fallback needs no further rewriting. */
  lemma StreamFallbackIdempotent(url: string)
    ensures StreamFallback(StreamFallback(url)) == StreamFallback(url)
  {
    var r := StreamFallback(url);
    if IsRemote(url) && !EndsWith(url, ".wav") {
      NotRemoteByPrefix(r, "shout://");
    }
  }

  /** A value starting with a stream prefix that has no "http" in front is not remote. */
  lemma NotRemoteByPrefix(v: string, prefix: string)
    requires prefix == "shout://" || prefix == "shell_stream://"
    requires StartsWith(v, prefix)
    ensures !IsRemote(v)
  {
    assert v[0] == prefix[0];
    assert Take(v, 7)[0] == v[0] && Take(v, 8)[0] == v[0];
    assert Lower(Take(v, 7))[0] == LowerChar(v[0]);
    assert Lower(Take(v, 8))[0] == LowerChar(v[0]);
  }

  /** The cache has rewritten a remote wav file into a shell stream of the retrieval script. */
  predicate WavCacheHit(cache: CacheSettings, reply: CacheReply) {
    cache != map[] && "url" in cache && "script" in cache && reply == CacheType("wav")
  }

  /** The cache has rewritten a remote mp3 file into a shout stream of its copy. */
  predicate Mp3CacheHit(cache: CacheSettings, reply: CacheReply) {
    cache != map[] && "url" in cache && reply == CacheType("mp3")
  }

  /**
   * `get_resource(socket, url)`. With cache settings, a remote URL is looked
   * up (`query` is `urlencode({'url': url})` and `reply` the lookup's answer):
   * "wav" gives `shell_stream://<script> <cache url>/Cache/?<query>`, "mp3"
   * gives `shout://<cache url after its first 7 characters>/Cache/?<query>`.
   * Any other kind, a failed lookup or a missing 'url' or 'script' setting
   * falls back to StreamFallback, as does having no cache.
   */
  function GetResource(cache: CacheSettings, url: string, query: string, reply: CacheReply): (r: string)
    ensures !IsRemote(url) ==> r == url
    ensures IsRemote(url) && WavCacheHit(cache, reply) ==>
              r == "shell_stream://" + (cache["script"] + " " + CachedUrl(cache, query))
    ensures IsRemote(url) && Mp3CacheHit(cache, reply) ==>
              r == "shout://" + (StripSlashes(Drop(cache["url"], 7)) + "/Cache/?" + query)
    ensures !WavCacheHit(cache, reply) && !Mp3CacheHit(cache, reply) ==> r == StreamFallback(url)
  {
    if cache != map[] && !IsRemote(url) then url
    else if cache != map[] && "url" in cache && reply == CacheType("wav") && "script" in cache then
      "shell_stream://" + (cache["script"] + " " + CachedUrl(cache, query))
    else if cache != map[] && "url" in cache && reply == CacheType("mp3") then
      "shout://" + (StripSlashes(Drop(cache["url"], 7)) + "/Cache/?" + query)
    else StreamFallback(url)
  }

  /**
   * Whatever the cache does, a remote URL resolves to something the switch
   * streams: a shell stream, a sound protocol URL, or a .wav URL kept as it is.
   */
  lemma GetResourceIsPlayable(cache: CacheSettings, url: string, query: string, reply: CacheReply)
    requires IsRemote(url)
    ensures var r := GetResource(cache, url, query, reply);
            || StartsWith(r, "shell_stream://")
            || IsValidSoundProto(r)
            || (r == url && EndsWith(url, ".wav"))
  {
  }

  /** A resolved media URL is stable: the fallback rewrite leaves it alone. */
  lemma GetResourceIsResolved(cache: CacheSettings, url: string, query: string, reply: CacheReply)
    ensures var r := GetResource(cache, url, query, reply);
            StreamFallback(r) == r && (IsRemote(r) ==> r == url && EndsWith(url, ".wav"))
  {
    var r := GetResource(cache, url, query, reply);
    if IsRemote(url) && (WavCacheHit(cache, reply) || Mp3CacheHit(cache, reply)) {
      CacheFormIsNotRemote(cache, url, query, reply);
    } else {
      assert r == StreamFallback(url);
      StreamFallbackIdempotent(url);
      FallbackIsNotRemote(url);
    }
  }

  lemma CacheFormIsNotRemote(cache: CacheSettings, url: string, query: string, reply: CacheReply)
    requires IsRemote(url) && (WavCacheHit(cache, reply) || Mp3CacheHit(cache, reply))
    ensures !IsRemote(GetResource(cache, url, query, reply))
  {
    var r := GetResource(cache, url, query, reply);
    if WavCacheHit(cache, reply) {
      var rest := cache["script"] + " " + CachedUrl(cache, query);
      assert r == "shell_stream://" + rest;
      NotRemoteByPrefix(r, "shell_stream://");
    } else {
      var rest := StripSlashes(Drop(cache["url"], 7)) + "/Cache/?" + query;
      assert r == "shout://" + rest;
      NotRemoteByPrefix(r, "shout://");
    }
  }

  lemma FallbackIsNotRemote(url: string)
    ensures IsRemote(StreamFallback(url)) ==> StreamFallback(url) == url && EndsWith(url, ".wav")
  {
    if IsRemote(url) && !EndsWith(url, ".wav") {
      NotRemoteByPrefix(StreamFallback(url), "shout://");
    }
  }

  /** An unsupported kind or a failed lookup is the same as having no cache. */
  lemma GetResourceDegradesToNoCache(cache: CacheSettings, url: string, query: string, reply: CacheReply)
    requires reply.LookupFailed? || (reply.kind != "wav" && reply.kind != "mp3")
    ensures GetResource(cache, url, query, reply) == GetResource(map[], url, query, reply)
  {
  }

  /** The cache has a grammar copy of a supported kind, and reading it succeeded. */
  predicate GrammarCacheHit(cache: CacheSettings, reply: CacheReply, cached: Fetched) {
    && cache != map[] && "url" in cache
    && reply.CacheType? && (reply.kind == "grxml" || reply.kind == "jsgf")
    && cached.Body?
  }

  /**
   * `get_grammar_resource(socket, grammar)`. `reply` answers the CacheType
   * lookup, `cached` is the read of CachedUrl and `direct` the read of the
   * grammar URL itself; each is used only on the path that performs it.
   */
  function GetGrammarResource(cache: CacheSettings, grammar: string, reply: CacheReply, cached: Fetched, direct: Fetched)
    : (r: GrammarResult)
    ensures StartsWith(grammar, "raw:") ==> r == Grammar(grammar[4..])
    ensures r == NoGrammar <==>
              && !StartsWith(grammar, "raw:")
              && (StartsWith(grammar, "url:") || StartsWith(grammar, "builtin:") || !IsRemote(grammar))
    ensures IsRemote(grammar) ==>
              if GrammarCacheHit(cache, reply, cached) then r == Grammar(cached.data)
              else if direct.Body? && direct.data != "" then r == Grammar(direct.data)
              else r == GrammarFailed
  {
    TakeIsPrefixTest(grammar, "raw:");
    TakeIsPrefixTest(grammar, "url:");
    TakeIsPrefixTest(grammar, "builtin:");
    RemoteHasNoGrammarPrefix(grammar);
    if Take(grammar, 4) == "raw:" then Grammar(Drop(grammar, 4))
    else if Take(grammar, 4) == "url:" then NoGrammar
    else if Take(grammar, 8) == "builtin:" then NoGrammar
    else if !IsRemote(grammar) then NoGrammar
    else if GrammarCacheHit(cache, reply, cached) then Grammar(cached.data)
    else if direct.Body? && direct.data != "" then Grammar(direct.data)
    else GrammarFailed
  }

  /** A remote URL starts with 'h' or 'H', so none of the inline prefixes applies to it. */
  lemma RemoteHasNoGrammarPrefix(grammar: string)
    ensures IsRemote(grammar) ==>
              !StartsWith(grammar, "raw:") && !StartsWith(grammar, "url:") && !StartsWith(grammar, "builtin:")
  {
    if IsRemote(grammar) {
      var n := if Lower(Take(grammar, 7)) == "http://" then 7 else 8;
      assert |Lower(Take(grammar, n))| == n;
      assert Take(grammar, n)[0] == grammar[0];
      assert Lower(Take(grammar, n))[0] == LowerChar(grammar[0]) == 'h';
      PrefixFirstChar(grammar, "raw:");
      PrefixFirstChar(grammar, "url:");
      PrefixFirstChar(grammar, "builtin:");
    }
  }

  lemma PrefixFirstChar(s: string, p: string)
    requires |p| > 0
    ensures StartsWith(s, p) ==> s[0] == p[0]
  {
    if StartsWith(s, p) { assert s[..|p|][0] == s[0]; }
  }

  /** A grammar is False only when it was remote and neither the cache nor the URL gave a body. */
  lemma GrammarFailsOnlyRemotely(cache: CacheSettings, grammar: string, reply: CacheReply, cached: Fetched, direct: Fetched)
    ensures GetGrammarResource(cache, grammar, reply, cached, direct) == GrammarFailed <==>
              && IsRemote(grammar)
              && !GrammarCacheHit(cache, reply, cached)
              && (direct.ReadFailed? || direct.data == "")
  {
    var r := GetGrammarResource(cache, grammar, reply, cached, direct);
    if !IsRemote(grammar) {
      TakeIsPrefixTest(grammar, "raw:");
      assert r.Grammar? || r == NoGrammar;
    }
  }

  /** A grammar that came from the direct fetch is never empty; only the cached copy or a raw grammar can be. */
  lemma GrammarTextSource(cache: CacheSettings, grammar: string, reply: CacheReply, cached: Fetched, direct: Fetched)
    requires GetGrammarResource(cache, grammar, reply, cached, direct).Grammar?
    ensures var text := GetGrammarResource(cache, grammar, reply, cached, direct).text;
            || (StartsWith(grammar, "raw:") && text == grammar[4..])
            || (GrammarCacheHit(cache, reply, cached) && text == cached.data)
            || (direct.Body? && text == direct.data && text != "")
  {
  }

  /** A cached copy of an unsupported kind, or a failed lookup, is the same as having no cache. */
  lemma GrammarDegradesToNoCache(cache: CacheSettings, grammar: string, reply: CacheReply, cached: Fetched, direct: Fetched)
    requires reply.LookupFailed? || (reply.kind != "grxml" && reply.kind != "jsgf") || cached.ReadFailed?
    ensures GetGrammarResource(cache, grammar, reply, cached, direct)
         == GetGrammarResource(map[], grammar, reply, cached, direct)
  {
  }
}

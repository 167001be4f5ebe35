# Plivo FreeSWITCH helpers, modelled in Dafny

This project models the helper layer of the Plivo framework,
`src/plivo/rest/freeswitch/helpers.py`. That layer sits between the REST
service and the FreeSWITCH switch and consists of:

- small string utilities: `get_substring`, `normalize_url_space`, and the
  `is_valid_url`, `is_sip_url` and `is_valid_sound_proto` classifiers;
- `HTTPRequest`, which builds the callback requests Plivo sends to
  applications. It builds GET URIs, prepares the string that the request
  signature (the `X-PLIVO-SIGNATURE` header) is computed over, and merges
  query-string parameters into the request parameters;
- the two resolvers `get_resource` and `get_grammar_resource`. They turn a
  media or grammar URL into something the switch can stream, preferring a
  copy held by the cache service;
- the configuration holders `HTTPJsonConfig` and `PlivoConfig`.

Modules:

- `Wrappers`: Option, Result, and the Python exceptions the helpers raise.
- `Text`: the parts of Python's `str` that the helpers use, namely clamped
  slicing, `find`, `strip`, `lower` and `replace`.
- `StringOrder`: Python's ordering of strings, and the smallest-first key
  order that `sorted(d.items())` walks.
- `StringHelpers`: the string utilities.
- `HttpRequest`: the request builder as values. A client is a datatype.
  The signing loop and the parameter merge are methods with loops, each
  proved against a specification function.
- `Resources`: both resolvers as functions. The answers of the network are
  inputs: the cache service's `CacheType` reply and the bodies that were
  read.
- `Config`: `HTTPJsonConfig` and `PlivoConfig` as classes whose methods
  update their fields, as the source does. The nested cache-building loop
  is proved against the function `IniCache`.

The outside world is abstracted as follows:

- `urllib.parse.urlencode` is a function parameter in `HttpRequest`. In
  `Resources`, `urlencode({'url': url})` is the string input `query`, and
  nothing ties it to `url`.
- `parse_qs(urlsplit(uri).query)` is an input map.
- The results of HTTP calls, of JSON decoding and of the INI parser are
  inputs.

Two behaviours of the code are worth knowing:

- `get_resource` applies the `shout://` rewrite to a remote non-`.wav` URL
  even when no cache is configured. The rewrite covers both `http://` and
  `https://` URLs, not just plain HTTP.
- The grammar resolver returns the cached copy even when it is empty. Only
  the direct fetch treats an empty body as a failure.

## Model

| member | source | states |
|---|---|---|
| StringHelpers.GetSubstring | src/plivo/rest/freeswitch/helpers.py:44-53 | empty data, or a missing marker, gives ""; otherwise the text from the end of the first start marker up to the first end marker, or "" when the end marker comes first |
| StringHelpers.NormalizeUrlSpace | src/plivo/rest/freeswitch/helpers.py:73-74 | the result is the input with its surrounding whitespace removed and each remaining space turned into '+': an infix of the input with only whitespace around it, mapped character by character. It has no space, and neither end is whitespace |
| StringHelpers.NormalizedAtUnique | src/plivo/rest/freeswitch/helpers.py:73-74 | the description of the normalized URL (whitespace-only margins, non-whitespace ends, spaces mapped to '+') admits at most one string for a given input |
| StringHelpers.NormalizeUrlSpaceCharacterized | src/plivo/rest/freeswitch/helpers.py:73-74 | any string fitting that description is exactly what normalization returns, so the description is a complete reference definition |
| StringHelpers.NormalizeUrlSpaceIdempotent | src/plivo/rest/freeswitch/helpers.py:73-74 | normalizing twice is the same as normalizing once |
| StringHelpers.NormalizeUrlSpaceKeepsCleanUrl | src/plivo/rest/freeswitch/helpers.py:73-74 | a URL without whitespace is returned unchanged |
| StringHelpers.IsValidUrl | src/plivo/rest/freeswitch/helpers.py:88-91 | true exactly when the value starts with "http://" or "https://" (case-sensitive); false for the empty value |
| StringHelpers.IsSipUrl | src/plivo/rest/freeswitch/helpers.py:93-96 | true exactly when the value starts with "sip:"; false for the empty value |
| StringHelpers.MatchesAlternative | src/plivo/rest/freeswitch/helpers.py:42 | an anchored alternation of literal prefixes matches exactly when one of them is a prefix |
| StringHelpers.IsValidSoundProto | src/plivo/rest/freeswitch/helpers.py:99-102 | true exactly when the value starts with tone_stream://, shout:// or vlc://; false for the empty value |
| HttpRequest.NewClient | src/plivo/rest/freeswitch/helpers.py:126-137 | the client keeps its three settings, and UnicodeEncodeError is raised exactly when the token has a non-ASCII character |
| HttpRequest.BuildGetUri | src/plivo/rest/freeswitch/helpers.py:139-144 | no parameters: the uri is unchanged; otherwise the uri is cut at its first '?' when that is past index 0, then "?" and the encoded parameters are appended |
| HttpRequest.BuildGetUriReplacesQuery | src/plivo/rest/freeswitch/helpers.py:139-144 | for a non-empty base without '?' and non-empty parameters, base?query has its query replaced by the encoded parameters, and base alone gets them appended |
| HttpRequest.BuildGetUriIdempotent | src/plivo/rest/freeswitch/helpers.py:139-144 | building the GET uri again from its own result changes nothing, for a non-empty uri that does not start with '?' |
| HttpRequest.SignatureString | src/plivo/rest/freeswitch/helpers.py:169-179 | the loop's string is the uri followed by key + str(value), with None as "", for every non-empty key in ascending key order |
| HttpRequest.TakeLeast | src/plivo/rest/freeswitch/helpers.py:173 | the key taken is the next one `sorted` yields: the rest of the order follows it |
| StringOrder.SortedKeysMembers | src/plivo/rest/freeswitch/helpers.py:173 | the sorted enumeration lists exactly the dictionary's keys |
| StringOrder.SortedKeysAscending | src/plivo/rest/freeswitch/helpers.py:173 | the sorted enumeration is strictly ascending in Python's string order |
| StringOrder.SortedKeysFirst | src/plivo/rest/freeswitch/helpers.py:173 | the enumeration starts with the smallest key and continues with the sorted rest |
| HttpRequest.SignedSkipsEmptyKey | src/plivo/rest/freeswitch/helpers.py:174 | a parameter with the empty key does not change the signed string |
| HttpRequest.SignedNoneAsEmpty | src/plivo/rest/freeswitch/helpers.py:175-178 | a None value is signed exactly as the empty string is |
| HttpRequest.SignedTwoKeys | src/plivo/rest/freeswitch/helpers.py:172-179 | two parameters are signed smaller key first, whatever order the dictionary was built in |
| HttpRequest.ProxyHost | src/plivo/rest/freeswitch/helpers.py:154 | IndexError is raised exactly when the proxy URL has no "http://"; otherwise the host is the text after the first "http://" up to the next "http://" or the end |
| HttpRequest.ProxyHostOfHttpUrl | src/plivo/rest/freeswitch/helpers.py:152-154 | "http://host" hands "host" to the proxy handler, for a host that holds no "http://" |
| HttpRequest.Prepared | src/plivo/rest/freeswitch/helpers.py:146-185 | the request fails exactly for a set proxy URL without "http://". DELETE and PUT keep their verb, GET stays GET, and anything else is POST. GET goes to the built GET uri and has no body; any other method goes to the uri unchanged with the encoded parameters as its body. A set proxy URL hands its ProxyHost to the request; otherwise there is no proxy. A signed string exists exactly when both credentials are set, and it is that url followed by the sorted parameters. The User-Agent is fixed |
| HttpRequest.PrepareRequest | src/plivo/rest/freeswitch/helpers.py:146-185 | the method, which builds the signed string with its loop, gives exactly Prepared |
| HttpRequest.Merged | src/plivo/rest/freeswitch/helpers.py:192-201 | a query key with values takes its last value; every other caller parameter is kept; no other key appears |
| HttpRequest.MergedUnique | src/plivo/rest/freeswitch/helpers.py:192-201 | those three properties determine the merged parameters |
| HttpRequest.MergeQuery | src/plivo/rest/freeswitch/helpers.py:192-201 | the copy-and-update loop computes exactly Merged |
| HttpRequest.FetchResponse | src/plivo/rest/freeswitch/helpers.py:187-205 | a method other than GET or POST raises NotImplementedError; otherwise the request is the one prepared from the merged parameters |
| HttpRequest.FetchGetReplacesQuery | src/plivo/rest/freeswitch/helpers.py:187-205 | for a non-empty base without '?', non-empty merged parameters and no proxy, a GET to base?query goes to base?urlencode(merged) instead of keeping the old query |
| Resources.IsRemoteIgnoresCase | src/plivo/rest/freeswitch/helpers.py:320-321 | the resolvers' remote test is is_valid_url applied to the lower-cased URL |
| Resources.StreamFallback | src/plivo/rest/freeswitch/helpers.py:348-357 | a URL that is not remote, or that ends in ".wav", is kept; any other remote URL becomes "shout://" followed by the URL after its http:// or https:// scheme |
| Resources.SchemeLength | src/plivo/rest/freeswitch/helpers.py:348-355 | 7 exactly when the URL starts with http:// and 8 exactly when it starts with https://, in any letter case |
| Resources.StreamFallbackIdempotent | src/plivo/rest/freeswitch/helpers.py:348-357 | the fallback rewrite applied to its own result changes nothing |
| Resources.GetResource | src/plivo/rest/freeswitch/helpers.py:316-357 | a URL that is not remote is returned unchanged. A "wav" answer gives the shell stream of the script on the cached copy. An "mp3" answer gives a shout:// URL on the cache host. Anything else, including a missing setting or a failed lookup, gives the fallback |
| Resources.GetResourceIsPlayable | src/plivo/rest/freeswitch/helpers.py:316-357 | a remote URL always resolves to a shell stream, a sound protocol URL, or itself when it ends in ".wav" |
| Resources.GetResourceIsResolved | src/plivo/rest/freeswitch/helpers.py:316-357 | the result is stable under the fallback rewrite, and it is remote only when it is the original .wav URL |
| Resources.CacheFormIsNotRemote | src/plivo/rest/freeswitch/helpers.py:334-340 | both cache rewrites give a URL that is not remote |
| Resources.FallbackIsNotRemote | src/plivo/rest/freeswitch/helpers.py:348-357 | the fallback is remote only when it kept a .wav URL |
| Resources.GetResourceDegradesToNoCache | src/plivo/rest/freeswitch/helpers.py:341-357 | an unsupported kind or a failed lookup resolves as if no cache were configured |
| Resources.GetGrammarResource | src/plivo/rest/freeswitch/helpers.py:360-415 | "raw:" gives the rest of the text. None is returned exactly for url:, builtin: and local grammars. A remote grammar gives the cached copy when the kind is grxml or jsgf and reading the copy succeeds; otherwise it gives a non-empty direct fetch, or else False |
| Resources.RemoteHasNoGrammarPrefix | src/plivo/rest/freeswitch/helpers.py:364-376 | no remote grammar starts with raw:, url: or builtin: |
| Resources.GrammarFailsOnlyRemotely | src/plivo/rest/freeswitch/helpers.py:360-415 | False is returned exactly for a remote grammar with no cache hit and a failed or empty direct fetch |
| Resources.GrammarTextSource | src/plivo/rest/freeswitch/helpers.py:360-415 | a returned grammar is the raw text, the cached copy, or a non-empty direct body |
| Resources.GrammarDegradesToNoCache | src/plivo/rest/freeswitch/helpers.py:379-402 | an unsupported kind, a failed lookup or a failed read of the copy resolves as if no cache were configured |
| Config.ItemsMapKeys | src/plivo/rest/freeswitch/helpers.py:279-280 | a section's dictionary has exactly the option names it lists |
| Config.ItemsMapLastWins | src/plivo/rest/freeswitch/helpers.py:279-280 | an option holds the value of its last occurrence |
| Config.ItemsMapStrings | src/plivo/rest/freeswitch/helpers.py:279-280 | every option value read from the INI file is a string |
| Config.IniCacheKeys | src/plivo/rest/freeswitch/helpers.py:276-280 | the INI cache has exactly the parser's section names |
| Config.IniCacheLastWins | src/plivo/rest/freeswitch/helpers.py:276-280 | a section holds the options of the last section of that name |
| Config.IniCacheStrings | src/plivo/rest/freeswitch/helpers.py:276-280 | every value of the INI cache is a string |
| Config.JsonConfigUrl | src/plivo/rest/freeswitch/helpers.py:284-292 | the JSON source is set exactly when [common] JSON_CONFIG_URL exists and is non-empty, and it is that value |
| Config.HttpJsonConfig.constructor | src/plivo/rest/freeswitch/helpers.py:242-243 | a new JSON configuration holds no document |
| Config.HttpJsonConfig.Read | src/plivo/rest/freeswitch/helpers.py:245-248 | a successful fetch stores its document; a failed one raises and keeps the old one |
| Config.HttpJsonConfig.Get | src/plivo/rest/freeswitch/helpers.py:250-257 | TypeError is raised exactly when no document was read; a missing section or option, and a null value, give ""; any other value gives its text |
| Config.HttpJsonConfig.Dumps | src/plivo/rest/freeswitch/helpers.py:259-260 | the stored document |
| Config.JsonGetAfterRead | src/plivo/rest/freeswitch/helpers.py:250-257 | once a document is read, get never raises and gives a string value as it is |
| Config.PlivoConfig.constructor | src/plivo/rest/freeswitch/helpers.py:264-270 | a new configuration has no JSON source, no JSON configuration and an empty cache |
| Config.PlivoConfig.SetCache | src/plivo/rest/freeswitch/helpers.py:272-280 | with a JSON configuration, the cache is its document (TypeError, with the cache untouched, when it holds none); otherwise the nested loop leaves exactly IniCache of the parser's sections; nothing else changes |
| Config.PlivoConfig.Read | src/plivo/rest/freeswitch/helpers.py:282-294 | the parser state and the JSON source are updated. Without a JSON source the cache is the INI cache. With one, a fresh JSON configuration is created, and either its document becomes the cache or the fetch error is raised with the old cache kept |
| Config.PlivoConfig.Reload | src/plivo/rest/freeswitch/helpers.py:312-313 | the same state as a read |
| Config.PlivoConfig.Dumps | src/plivo/rest/freeswitch/helpers.py:296-297 | the cache |
| Config.PlivoConfig.GetSection | src/plivo/rest/freeswitch/helpers.py:299-300 | a section's options, with KeyError exactly when the section is missing |
| Config.PlivoConfig.Get | src/plivo/rest/freeswitch/helpers.py:302-310 | a string value is returned stripped; any other present value raises AttributeError whatever the default; a missing section or option gives the default when one is passed and raises KeyError otherwise |
| Config.IniGetHasNoAttributeError | src/plivo/rest/freeswitch/helpers.py:302-304 | with an INI cache, get never raises AttributeError |
| Config.IniGetLastValue | src/plivo/rest/freeswitch/helpers.py:276-304 | with an INI cache, get returns the stripped value of an option's last occurrence in the last section of that name |

## Left out

- `url_exists` and `file_exists`: these are network and file-system probes with no logic of their own.
- `HTTPErrorProcessor`, `HTTPUrlRequest`, the opener installation and `urlopen`: these belong to urllib. A prepared request records its verb, URL, body, headers and proxy host instead.
- HMAC-SHA1, base64 and the `X-PLIVO-SIGNATURE` header: the model stops at the string that is signed.
- `urlencode`, `urlsplit` and `parse_qs`: these are abstract inputs, not modelled encoders.
- JSON decoding, the INI parser (its `optionxform`, interpolation and DEFAULT section, and how repeated reads merge) and the HTTP fetches: their outcomes are inputs.
- `get_config`, `get_json_config`, `get_conf_value`, `get_post_param` and `get_http_param`: these are thin wrappers around the parser and the web framework.
- Logging (`socket.log`, `log`), gevent monkey-patching and the module's MIME table.
- HttpRequest.FetchResponse: stops at the prepared request. Opening it and returning the response body are left out.
- Text.Lower: lowers ASCII letters only. The only comparisons are with "http://" and "https://", and no other character lowers to those letters.
- Python 3 errors in the source are outside the model: `urllib2` is undefined at line 105, `hmac.new` is given a `str` message, and `base64.encodestring` no longer exists. The `raise "..."` at line 393 raises a TypeError, which the surrounding handler catches all the same.
- StringHelpers.GetSubstring: a `None` argument is not modelled. Every text is a string, and `None` data would give "" like empty data.
- Config: a JSON document that is not a dictionary of dictionaries is not modelled.
- The example scripts under `src/examples` and `setup.py`; the event-socket library those scripts import is not in this repository.

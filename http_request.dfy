/**
 * The request-building rules of `HTTPRequest` in helpers.py: the GET query
 * string, the canonical string that is signed, the preparation of a request
 * and the merge of query-string parameters in `fetch_response`.
 *
 * `urllib.parse.urlencode` is a parameter (`urlencode`) and the parsed query
 * `parse_qs(urlsplit(uri).query)` is an input (`qs`); opening the URL and the
 * HMAC-SHA1 of the canonical string are outside the model.
 */
module HttpRequest {
  import opened Wrappers
  import opened Text
  import opened StringOrder

  /** Request parameters: None, or the text `str(v)` gives for the value. */
  type Params = map<string, Option<string>>

  /** The parsed query string: each key with the list of its values. */
  type Query = map<string, seq<string>>

  const UserAgent: string :=
    "Mozilla/5.0 (X11; Linux i686) AppleWebKit/535.1 (KHTML, like Gecko) Chrome/14.0.835.35 Safari/535.1"

  /** The fields of an `HTTPRequest` that request building reads (the opener is left out). */
  datatype Client = Client(authId: string, authToken: string, proxyUrl: Option<string>)

  /** A prepared request: the HTTP verb, the URL, the body, the User-Agent header,
      the canonical string the signature is computed over (when signing) and the
      proxy host handed to the proxy handler (when a proxy is configured). */
  datatype Request = Request(
    verb: string,
    url: string,
    body: Option<string>,
    userAgent: string,
    signed: Option<string>,
    proxy: Option<string>)

  /** `HTTPRequest(auth_id, auth_token, proxy_url)`: the token must encode as ASCII. */
  function NewClient(authId: string, authToken: string, proxyUrl: Option<string>): (r: Result<Client, Failure>)
    ensures r.Ok? <==> forall i :: 0 <= i < |authToken| ==> authToken[i] < '\U{80}'
    ensures r.Ok? ==> r.value.authId == authId && r.value.authToken == authToken && r.value.proxyUrl == proxyUrl
    ensures r.Err? ==> r.error == UnicodeEncodeError
  {
    if forall i | 0 <= i < |authToken| :: authToken[i] < '\U{80}' then Ok(Client(authId, authToken, proxyUrl))
    else Err(UnicodeEncodeError)
  }

  /**
   * `_build_get_uri(uri, params)`: with parameters, the uri is cut at its
   * first '?' (only when that '?' is not at index 0) and the encoded
   * parameters are appended after a '?'.
   */
  function BuildGetUri(uri: string, params: Params, urlencode: Params -> string): (r: string)
    ensures params == map[] ==> r == uri
    ensures params != map[] ==>
              forall i :: FirstAt(uri, "?", i) && i > 0 ==> r == uri[..i] + "?" + urlencode(params)
    ensures params != map[] && (!Contains(uri, "?") || StartsWith(uri, "?")) ==>
              r == uri + "?" + urlencode(params)
  {
    if params == map[] then uri
    else
      var q := Find(uri, "?");
      assert StartsWith(uri, "?") ==> OccursAt(uri, "?", 0);
      var base := if q > 0 then uri[..q] else uri;
      base + "?" + urlencode(params)
  }

  /** Building a GET uri from one that already carries a query replaces that query. */
  lemma BuildGetUriReplacesQuery(base: string, query: string, params: Params, urlencode: Params -> string)
    requires base != [] && '?' !in base && params != map[]
    ensures BuildGetUri(base + "?" + query, params, urlencode) == base + "?" + urlencode(params)
    ensures BuildGetUri(base, params, urlencode) == base + "?" + urlencode(params)
  {
    var uri := base + "?" + query;
    assert OccursAt(uri, "?", |base|) by { assert uri[|base|..|base| + 1] == "?"; }
    forall j | 0 <= j < |base| ensures !OccursAt(uri, "?", j) {
      assert uri[j..j + 1] == [base[j]];
    }
    assert FirstAt(uri, "?", |base|);
    assert !Contains(base, "?") by {
      forall j | 0 <= j <= |base| ensures !OccursAt(base, "?", j) {
        if j < |base| { assert base[j..j + 1] == [base[j]]; }
      }
    }
    assert uri[..|base|] == base;
  }

  /** Rebuilding a GET uri for the same parameters gives the same uri. */
  lemma BuildGetUriIdempotent(uri: string, params: Params, urlencode: Params -> string)
    requires uri != [] && uri[0] != '?'
    ensures BuildGetUri(BuildGetUri(uri, params, urlencode), params, urlencode) == BuildGetUri(uri, params, urlencode)
  {
    if params != map[] {
      var q := Find(uri, "?");
      if q > 0 {
        var base := uri[..q];
        forall j | 0 <= j < |base| ensures base[j] != '?' {
          assert !OccursAt(uri, "?", j);
          assert uri[j..j + 1] == [base[j]];
        }
        BuildGetUriReplacesQuery(base, urlencode(params), params, urlencode);
      } else {
        assert !OccursAt(uri, "?", 0) by { assert uri[0..1] == [uri[0]]; }
        assert q == -1;
        forall j | 0 <= j < |uri| ensures uri[j] != '?' {
          assert !OccursAt(uri, "?", j);
          assert uri[j..j + 1] == [uri[j]];
        }
        BuildGetUriReplacesQuery(uri, urlencode(params), params, urlencode);
      }
    }
  }

  /** What one parameter value contributes: None gives "", anything else `str(v)`. */
  function ValueText(v: Option<string>): string {
    match v
    case None => ""
    case Some(t) => t
  }

  /** What one key contributes to the signed string: nothing for the empty key. */
  function Piece(params: Params, k: string): string
    requires k in params
  {
    if k == "" then "" else k + ValueText(params[k])
  }

  /** The contributions of the keys ks, in that order. */
  function Pieces(params: Params, ks: seq<string>): string
    requires forall k :: k in ks ==> k in params
  {
    if ks == [] then "" else Piece(params, ks[0]) + Pieces(params, ks[1..])
  }

  /** The part of the signed string after the uri: every key in ascending order. */
  ghost function Signed(params: Params): string {
    SortedKeysMembers(params.Keys);
    Pieces(params, SortedKeys(params.Keys))
  }

  /**
   * The loop at the heart of `_prepare_http_request`: starting from the uri,
   * append `k + str(v)` for each non-empty key in ascending key order.
   * Each iteration takes the smallest key not yet visited.
   */
  method SignatureString(uri: string, params: Params) returns (s: string)
    ensures s == uri + Signed(params)
  {
    s := uri;
    var rest := params.Keys;
    ghost var done: seq<string> := [];
    while rest != {}
      invariant rest <= params.Keys
      invariant forall j :: j in done ==> j in params
      invariant SortedKeys(params.Keys) == done + SortedKeys(rest)
      invariant s == uri + Pieces(params, done)
      decreases |rest|
    {
      var k := TakeLeast(rest);
      Regroup(done, k, SortedKeys(rest - {k}));
      AppendPiece(uri, params, done, k);
      s := s + Piece(params, k);
      done := done + [k];
      rest := rest - {k};
    }
    assert SortedKeys(rest) == [];
    assert done == SortedKeys(params.Keys);
  }

  /** Appending a key's contribution to the signed string extends it by that key. */
  lemma AppendPiece(uri: string, params: Params, done: seq<string>, k: string)
    requires k in params && forall j :: j in done ==> j in params
    ensures forall j :: j in done + [k] ==> j in params
    ensures uri + Pieces(params, done) + Piece(params, k) == uri + Pieces(params, done + [k])
  {
    PiecesSnoc(params, done, k);
  }

  lemma Regroup(done: seq<string>, k: string, tail: seq<string>)
    ensures done + ([k] + tail) == (done + [k]) + tail
  {
  }

  /** The smallest key not yet visited: the next one `sorted` yields. */
  method TakeLeast(rest: set<string>) returns (k: string)
    requires rest != {}
    ensures k in rest && SortedKeys(rest) == [k] + SortedKeys(rest - {k})
  {
    LeastExists(rest);
    k :| k in rest && IsLeast(k, rest);
    SortedKeysFirst(k, rest);
  }

  lemma {:induction false} PiecesSnoc(params: Params, ks: seq<string>, k: string)
    requires k in params && forall j :: j in ks ==> j in params
    ensures Pieces(params, ks + [k]) == Pieces(params, ks) + Piece(params, k)
  {
    if ks == [] {
      assert [k][1..] == [];
    } else {
      assert (ks + [k])[1..] == ks[1..] + [k];
      PiecesSnoc(params, ks[1..], k);
    }
  }

  lemma PiecesCons(params: Params, k: string, tail: seq<string>)
    requires k in params && forall j :: j in tail ==> j in params
    ensures Pieces(params, [k] + tail) == Piece(params, k) + Pieces(params, tail)
  {
    assert ([k] + tail)[1..] == tail;
  }

  /** Pieces depends only on what each listed key contributes. */
  lemma {:induction false} PiecesAgree(p1: Params, p2: Params, ks: seq<string>)
    requires forall k :: k in ks ==> k in p1 && k in p2 && Piece(p1, k) == Piece(p2, k)
    ensures Pieces(p1, ks) == Pieces(p2, ks)
  {
    if ks != [] {
      assert forall k :: k in ks[1..] ==> k in ks;
      PiecesAgree(p1, p2, ks[1..]);
    }
  }

  /** A parameter with the empty key contributes nothing to the signed string. */
  lemma SignedSkipsEmptyKey(params: Params)
    requires "" in params
    ensures Signed(params) == Signed(params - {""})
  {
    var keys := params.Keys;
    assert IsLeast("", keys);
    SortedKeysFirst("", keys);
    var tail := SortedKeys(keys - {""});
    SortedKeysMembers(keys - {""});
    assert (params - {""}).Keys == keys - {""};
    PiecesCons(params, "", tail);
    PiecesAgree(params, params - {""}, tail);
  }

  /** A None value is signed exactly as the empty string is. */
  lemma SignedNoneAsEmpty(params: Params, k: string)
    requires k in params && params[k] == None
    ensures Signed(params) == Signed(params[k := Some("")])
  {
    var p2 := params[k := Some("")];
    assert p2.Keys == params.Keys;
    SortedKeysMembers(params.Keys);
    PiecesAgree(params, p2, SortedKeys(params.Keys));
  }

  lemma SortedPair(a: string, b: string)
    requires a != b && LexLe(a, b)
    ensures SortedKeys({a, b}) == [a, b]
  {
    LexLeReflexive(a);
    assert IsLeast(a, {a, b});
    SortedKeysFirst(a, {a, b});
    assert {a, b} - {a} == {b};
    LexLeReflexive(b);
    assert IsLeast(b, {b});
    SortedKeysFirst(b, {b});
    assert {b} - {b} == {};
  }

  /** Two parameters are signed smaller key first, whatever order they were given in. */
  lemma SignedTwoKeys(a: string, b: string, va: Option<string>, vb: Option<string>)
    requires a != "" && a != b && LexLe(a, b)
    ensures Signed(map[a := va, b := vb]) == a + ValueText(va) + b + ValueText(vb)
    ensures Signed(map[b := vb, a := va]) == a + ValueText(va) + b + ValueText(vb)
  {
    var p := map[a := va, b := vb];
    assert map[b := vb, a := va] == p;
    assert p.Keys == {a, b};
    SignedOfPair(p, a, b);
  }

  lemma SignedOfPair(p: Params, a: string, b: string)
    requires a != "" && a != b && LexLe(a, b) && p.Keys == {a, b}
    ensures Signed(p) == a + ValueText(p[a]) + b + ValueText(p[b])
  {
    SortedPair(a, b);
    var sa, sb := a + ValueText(p[a]), b + ValueText(p[b]);
    PiecesCons(p, b, []);
    assert Pieces(p, [b]) == sb;
    PiecesCons(p, a, [b]);
    assert [a] + [b] == [a, b];
    assert Pieces(p, [a, b]) == sa + sb;
    assert sa + sb == a + ValueText(p[a]) + b + ValueText(p[b]);
  }

  /**
   * `proxy_url.split('http://')[1]`: the text between the first and the
   * second 'http://', raising IndexError when there is no 'http://'.
   */
  function ProxyHost(proxyUrl: string): (r: Result<string, Failure>)
    ensures r.Err? <==> !Contains(proxyUrl, "http://")
    ensures r.Err? ==> r.error == IndexError
    ensures r.Ok? ==> exists i :: FirstAt(proxyUrl, "http://", i) && SecondPieceAt(proxyUrl, i, r.value)
  {
    var i := Find(proxyUrl, "http://");
    if i < 0 then Err(IndexError)
    else
      var j := FindFrom(proxyUrl, "http://", i + 7);
      var host := if j < 0 then proxyUrl[i + 7..] else proxyUrl[i + 7..j];
      SecondPiece(proxyUrl, i, j);
      Ok(host)
  }

  lemma SecondPiece(proxyUrl: string, i: int, j: int)
    requires OccursAt(proxyUrl, "http://", i) && j == FindFrom(proxyUrl, "http://", i + 7)
    ensures SecondPieceAt(proxyUrl, i, if j < 0 then proxyUrl[i + 7..] else proxyUrl[i + 7..j])
  {
  }

  /**
   * host is the second piece of `proxyUrl.split('http://')` when the first
   * separator is at i: the text after it, up to the next separator or the end.
   */
  predicate SecondPieceAt(proxyUrl: string, i: int, host: string) {
    var e := i + 7 + |host|;
    && 0 <= i && e <= |proxyUrl| && host == proxyUrl[i + 7..e]
    && (forall j :: i + 7 <= j < e ==> !OccursAt(proxyUrl, "http://", j))
    && (e == |proxyUrl| || OccursAt(proxyUrl, "http://", e))
  }

  /** The usual proxy setting `http://host:port` hands `host:port` to the proxy handler. */
  lemma ProxyHostOfHttpUrl(host: string)
    requires !Contains(host, "http://")
    ensures ProxyHost("http://" + host) == Ok(host)
  {
    var p := "http://" + host;
    assert OccursAt(p, "http://", 0) by { assert p[0..7] == "http://"; }
    assert Find(p, "http://") == 0;
    forall j | 7 <= j ensures !OccursAt(p, "http://", j) {
      if OccursAt(p, "http://", j) {
        assert p[j..j + 7] == host[j - 7..j];
        assert OccursAt(host, "http://", j - 7);
      }
    }
    assert p[7..] == host;
  }

  /**
   * `_prepare_http_request(uri, params, method)`: GET puts the parameters in
   * the uri, any other method sends them encoded as the body (DELETE and PUT
   * keep their verb, everything else is a POST), and with both credentials
   * set the string to be signed is the final uri followed by the sorted
   * parameters.
   */
  ghost function Prepared(client: Client, uri: string, params: Params, verb: string, urlencode: Params -> string): (r: Result<Request, Failure>)
    ensures r.Err? <==> client.proxyUrl.Some? && client.proxyUrl.value != "" && !Contains(client.proxyUrl.value, "http://")
    ensures r.Err? ==> r.error == IndexError
    ensures r.Ok? ==> r.value.verb == (if verb in {"GET", "PUT", "DELETE"} then verb else "POST")
    ensures r.Ok? ==> (r.value.body.None? <==> verb == "GET")
    ensures r.Ok? ==> (r.value.signed.Some? <==> client.authId != "" && client.authToken != "")
    ensures r.Ok? && r.value.signed.Some? ==> r.value.signed.value == r.value.url + Signed(params)
    ensures r.Ok? ==> r.value.userAgent == UserAgent
    ensures r.Ok? ==> r.value.url == if verb == "GET" then BuildGetUri(uri, params, urlencode) else uri
    ensures r.Ok? && verb != "GET" ==> r.value.body == Some(urlencode(params))
    ensures r.Ok? && client.proxyUrl.Some? && client.proxyUrl.value != "" ==>
              r.value.proxy.Some? && ProxyHost(client.proxyUrl.value) == Ok(r.value.proxy.value)
    ensures r.Ok? && !(client.proxyUrl.Some? && client.proxyUrl.value != "") ==> r.value.proxy == None
  {
    var proxy := if client.proxyUrl.Some? && client.proxyUrl.value != "" then Some(ProxyHost(client.proxyUrl.value)) else None;
    if proxy.Some? && proxy.value.Err? then Err(proxy.value.error)
    else
      var url := if verb == "GET" then BuildGetUri(uri, params, urlencode) else uri;
      var body := if verb == "GET" then None else Some(urlencode(params));
      var httpVerb := if verb == "GET" then "GET" else if verb == "DELETE" || verb == "PUT" then verb else "POST";
      var signed := if client.authId != "" && client.authToken != "" then Some(url + Signed(params)) else None;
      Ok(Request(httpVerb, url, body, UserAgent, signed, if proxy.Some? then Some(proxy.value.value) else None))
  }

  /** `_prepare_http_request`, building the signed string with its loop. */
  method PrepareRequest(client: Client, uri: string, params: Params, verb: string, urlencode: Params -> string)
    returns (r: Result<Request, Failure>)
    ensures r == Prepared(client, uri, params, verb, urlencode)
  {
    var proxy: Option<string> := None;
    if client.proxyUrl.Some? && client.proxyUrl.value != "" {
      var host := ProxyHost(client.proxyUrl.value);
      if host.Err? {
        return Err(host.error);
      }
      proxy := Some(host.value);
    }
    var url: string, body: Option<string>, httpVerb: string;
    if verb == "GET" {
      url, body, httpVerb := BuildGetUri(uri, params, urlencode), None, "GET";
    } else {
      url, body := uri, Some(urlencode(params));
      httpVerb := if verb == "DELETE" || verb == "PUT" then verb else "POST";
    }
    var signed: Option<string> := None;
    if client.authId != "" && client.authToken != "" {
      var s := SignatureString(url, params);
      signed := Some(s);
    }
    r := Ok(Request(httpVerb, url, body, UserAgent, signed, proxy));
  }

  /**
   * The parameters `fetch_response` sends: the caller's, with every query
   * key that has at least one value overridden by its last value.
   */
  function Merged(params: Params, qs: Query): (m: Params)
    ensures forall k :: k in qs && qs[k] != [] ==> k in m && m[k] == Some(qs[k][|qs[k]| - 1])
    ensures forall k :: k in params && (k !in qs || qs[k] == []) ==> k in m && m[k] == params[k]
    ensures forall k :: k in m ==> k in params || (k in qs && qs[k] != [])
  {
    map k | k in params.Keys + qs.Keys && (k in params || qs[k] != []) ::
      if k in qs && qs[k] != [] then Some(qs[k][|qs[k]| - 1]) else params[k]
  }

  /** The three properties of Merged determine it. */
  lemma MergedUnique(params: Params, qs: Query, m: Params)
    requires forall k :: k in qs && qs[k] != [] ==> k in m && m[k] == Some(qs[k][|qs[k]| - 1])
    requires forall k :: k in params && (k !in qs || qs[k] == []) ==> k in m && m[k] == params[k]
    requires forall k :: k in m ==> k in params || (k in qs && qs[k] != [])
    ensures m == Merged(params, qs)
  {
  }

  /**
   * The copy-and-update loop of `fetch_response`. The caller's map is a value
   * here, so it cannot change; the loop updates its own copy.
   */
  method MergeQuery(params: Params, qs: Query) returns (merged: Params)
    ensures merged == Merged(params, qs)
  {
    merged := params;
    var rest := qs.Keys;
    while rest != {}
      invariant rest <= qs.Keys
      invariant forall k :: k in qs && k !in rest && qs[k] != [] ==>
                  k in merged && merged[k] == Some(qs[k][|qs[k]| - 1])
      invariant forall k :: k in params && (k !in qs || k in rest || qs[k] == []) ==>
                  k in merged && merged[k] == params[k]
      invariant forall k :: k in merged ==> k in params || (k in qs && k !in rest && qs[k] != [])
      decreases |rest|
    {
      var k :| k in rest;
      var v := qs[k];
      if v != [] {
        merged := merged[k := Some(v[|v| - 1])];
      }
      rest := rest - {k};
    }
    MergedUnique(params, qs, merged);
  }

  /**
   * `fetch_response(uri, params, method)` up to the point where the request
   * is opened: only GET and POST are accepted, and the request is prepared
   * from the merged parameters.
   */
  method FetchResponse(client: Client, uri: string, params: Params, verb: string, qs: Query, urlencode: Params -> string)
    returns (r: Result<Request, Failure>)
    ensures verb != "GET" && verb != "POST" ==> r == Err(NotImplemented(verb))
    ensures verb == "GET" || verb == "POST" ==> r == Prepared(client, uri, Merged(params, qs), verb, urlencode)
  {
    if verb != "GET" && verb != "POST" {
      return Err(NotImplemented(verb));
    }
    var merged := MergeQuery(params, qs);
    r := PrepareRequest(client, uri, merged, verb, urlencode);
  }

  /** A GET to `base?query` sends the merged parameters in place of the old query. */
  lemma FetchGetReplacesQuery(client: Client, base: string, query: string, params: Params, qs: Query, urlencode: Params -> string)
    requires base != [] && '?' !in base && Merged(params, qs) != map[]
    requires client.proxyUrl.None?
    ensures Prepared(client, base + "?" + query, Merged(params, qs), "GET", urlencode).Ok?
    ensures Prepared(client, base + "?" + query, Merged(params, qs), "GET", urlencode).value.url
            == base + "?" + urlencode(Merged(params, qs))
  {
    BuildGetUriReplacesQuery(base, query, Merged(params, qs), urlencode);
  }
}

/** The client's HTTP service: the base URL, the joining of image URLs, the
    query string of a search, the form fields of a create and an update, and
    the error message a failed request throws. Requests themselves are not
    modelled; a reply is a parameter. */
module Api {
  import opened Text
  import opened PlakaTypes

  const DefaultBaseUrl: string := "http://localhost:5000/api"

  /** `API_BASE_URL`: the configured base, or the local default when it is unset or empty. */
  function ApiBaseUrl(configured: Option<string>): (r: string)
    ensures Truthy(configured) ==> r == configured.value
    ensures !Truthy(configured) ==> r == DefaultBaseUrl
  {
    if Truthy(configured) then configured.value else DefaultBaseUrl
  }

  // ------------------------------------------------------------ image URLs

  /** A path with a `/` in front unless it already has one. */
  function Rooted(path: string): (r: string)
    ensures IsPrefix("/", r)
    ensures IsPrefix("/", path) ==> r == path
    ensures !IsPrefix("/", path) ==> r == "/" + path
  {
    if IsPrefix("/", path) then path else "/" + path
  }

  predicate IsAbsolute(url: string) {
    IsPrefix("http://", url) || IsPrefix("https://", url)
  }

  /** `getImageUrl` as written: the base loses its FIRST `/api`, wherever it is. */
  function GetImageUrl(base: string, imageUrl: string): (r: string)
    ensures imageUrl == [] ==> r == []
    ensures imageUrl != [] && IsAbsolute(imageUrl) ==> r == imageUrl
    ensures imageUrl != [] && !IsAbsolute(imageUrl) ==> r == ReplaceFirst(base, "/api", "") + Rooted(imageUrl)
  {
    if imageUrl == [] then []
    else if IsAbsolute(imageUrl) then imageUrl
    else ReplaceFirst(base, "/api", "") + Rooted(imageUrl)
  }

  /** Where `ReplaceFirst` cuts when the first match is known. */
  lemma ReplaceFirstAt(s: string, pat: string, rep: string, i: nat)
    requires i <= |s| && IsPrefix(pat, s[i..])
    requires forall j :: 0 <= j < i ==> !IsPrefix(pat, s[j..])
    ensures ReplaceFirst(s, pat, rep) == s[..i] + rep + s[i + |pat|..]
  {
    var r := FirstIndexFrom(s, pat, 0);
    assert r.Some? && r.value == i;
  }

  predicate NoSlash(s: string) {
    forall i :: 0 <= i < |s| ==> s[i] != '/'
  }

  /** No `/api` starts at a position that does not hold `/`. */
  lemma NoApiWithoutSlash(s: string, lo: nat, hi: nat)
    requires lo <= hi <= |s|
    requires forall j :: lo <= j < hi ==> s[j] != '/'
    ensures forall j :: lo <= j < hi ==> !IsPrefix("/api", s[j..])
  {
    forall j | lo <= j < hi
      ensures !IsPrefix("/api", s[j..])
    {
      assert s[j..][0] == s[j];
    }
  }

  /** `/api` starts a text exactly when `/` does and `api` follows it. */
  lemma ApiAfterSlash(t: string)
    requires t != []
    ensures IsPrefix("/api", t) <==> t[0] == '/' && IsPrefix("api", t[1..])
  {
    if IsPrefix("/api", t) {
      assert t[1..][..3] == t[..4][1..];
    }
    if t[0] == '/' && IsPrefix("api", t[1..]) {
      assert t[..4] == [t[0]] + t[1..][..3];
    }
  }

  /** `/api` does not start a text whose second character is not `a`. */
  lemma SecondNotA(t: string)
    requires |t| >= 2 && t[1] != 'a'
    ensures !IsPrefix("/api", t)
  {
    if |t| >= 4 {
      assert t[..4][1] == t[1];
    }
  }

  /** Behind a known prefix `b`, a shorter `a` is a prefix iff it is one of `b`. */
  lemma SharedPrefix(a: string, b: string, t: string)
    requires IsPrefix(b, t) && |a| <= |b|
    ensures IsPrefix(a, t) <==> IsPrefix(a, b)
  {
    assert t[..|a|] == t[..|b|][..|a|];
  }

  lemma TakeConcat(a: string, b: string, n: nat)
    requires |a| <= n <= |a| + |b|
    ensures (a + b)[..n] == a + b[..n - |a|]
  {
  }

  lemma DropConcat(a: string, b: string, n: nat)
    requires n <= |a|
    ensures (a + b)[n..] == a[n..] + b
  {
  }

  /** The pieces of a base `scheme://host/api`. */
  lemma BaseParts(scheme: string, host: string)
    ensures var s := scheme + "//" + host + "/api"; var k := |scheme|;
      && |s| == k + |host| + 6
      && s[..k + 2] == scheme + "//" && s[k + 2..] == host + "/api"
      && s[k] == '/' && s[k + 1] == '/'
      && s[..k + 2 + |host|] == scheme + "//" + host
  {
    var s := scheme + "//" + host + "/api";
    assert s == (scheme + "//") + (host + "/api");
  }

  /** The first `/api` of `scheme://host/api`, for a scheme and a host
      without `/` and a host that does not start with `api`, is its path. */
  lemma FirstApiOfBase(scheme: string, host: string)
    requires NoSlash(scheme) && NoSlash(host) && |host| >= 3
    requires !IsPrefix("api", host)
    ensures ReplaceFirst(scheme + "//" + host + "/api", "/api", "") == scheme + "//" + host
  {
    var s := scheme + "//" + host + "/api";
    var k := |scheme|;
    var e := k + 2 + |host|;
    BaseParts(scheme, host);
    NoApiWithoutSlash(s, 0, k);
    assert forall j :: k + 2 <= j < e ==> s[j] == host[j - k - 2] by {
      forall j | k + 2 <= j < e ensures s[j] == host[j - k - 2] {
        assert s[j] == s[k + 2..][j - k - 2];
      }
    }
    NoApiWithoutSlash(s, k + 2, e);
    SecondNotA(s[k..]);
    assert s[k + 2..][..|host|] == host;
    SharedPrefix("api", host, s[k + 2..]);
    ApiAfterSlash(s[k + 1..]);
    assert s[k + 1..][1..] == s[k + 2..];
    forall j | 0 <= j < e
      ensures !IsPrefix("/api", s[j..])
    {
      if j < k {
      } else if j == k {
      } else if j == k + 1 {
      } else {
        assert k + 2 <= j;
      }
    }
    assert s[e..] == "/api";
    ReplaceFirstAt(s, "/api", "", e);
  }

  /** For a host that starts with `api`, the first `/api` of
      `scheme://host/api` is the one inside `//api`. */
  lemma FirstApiOfApiHost(scheme: string, host: string)
    requires NoSlash(scheme) && IsPrefix("api", host)
    ensures ReplaceFirst(scheme + "//" + host + "/api", "/api", "") == scheme + "/" + host[3..] + "/api"
  {
    var s := scheme + "//" + host + "/api";
    var k := |scheme|;
    BaseParts(scheme, host);
    NoApiWithoutSlash(s, 0, k);
    SecondNotA(s[k..]);
    forall j | 0 <= j < k + 1
      ensures !IsPrefix("/api", s[j..])
    {
      if j < k {
      } else {
        assert j == k;
      }
    }
    assert s[k + 2..][..|host|] == host;
    SharedPrefix("api", host, s[k + 2..]);
    ApiAfterSlash(s[k + 1..]);
    assert s[k + 1..][1..] == s[k + 2..];
    ReplaceFirstAt(s, "/api", "", k + 1);
    ApiHostParts(scheme, host);
  }

  /** What is left of `scheme://host/api` around the `/api` of `//api`. */
  lemma ApiHostParts(scheme: string, host: string)
    requires IsPrefix("api", host)
    ensures var s := scheme + "//" + host + "/api"; var k := |scheme|;
      s[..k + 1] + "" + s[k + 5..] == scheme + "/" + host[3..] + "/api"
  {
    var s := scheme + "//" + host + "/api";
    var k := |scheme|;
    BaseParts(scheme, host);
    var head, tail := s[..k + 1], s[k + 5..];
    assert head == scheme + "/" by {
      assert head == s[..k + 2][..k + 1];
      TakeConcat(scheme, "//", k + 1);
    }
    assert tail == host[3..] + "/api" by {
      assert tail == s[k + 2..][3..];
      DropConcat(host, "/api", 3);
    }
  }

  /** With a base `scheme://host/api` whose host does not start with `api`,
      as the default base, an image path is served from `scheme://host`. */
  lemma PlainHostImageUrl(scheme: string, host: string, path: string)
    requires NoSlash(scheme) && NoSlash(host) && |host| >= 3 && !IsPrefix("api", host)
    requires IsPrefix("/", path)
    ensures GetImageUrl(scheme + "//" + host + "/api", path) == scheme + "//" + host + path
  {
    assert path[0] == '/';
    assert !IsAbsolute(path);
    FirstApiOfBase(scheme, host);
  }

  /** A base whose host name starts with `api`, as `https://api.plaka.com/api`,
      loses the `/api` of its `//api`, not its path: the image URL is no
      longer a URL of that host (`https:/.plaka.com/api/uploads/...`). */
  lemma ApiHostImageUrl(scheme: string, host: string, path: string)
    requires NoSlash(scheme) && IsPrefix("api", host)
    requires IsPrefix("/", path)
    ensures GetImageUrl(scheme + "//" + host + "/api", path) == scheme + "/" + host[3..] + "/api" + path
  {
    assert path[0] == '/';
    assert !IsAbsolute(path);
    FirstApiOfApiHost(scheme, host);
  }

  /** The server's origin: the base without a trailing `/api`. */
  function ServerOrigin(base: string): (r: string)
    ensures IsPrefix(r, base)
  {
    if |base| >= 4 && base[|base| - 4..] == "/api" then base[..|base| - 4] else base
  }

  /** `getImageUrl` cutting only a trailing `/api`. */
  function GetImageUrlFixed(base: string, imageUrl: string): (r: string)
    ensures imageUrl == [] ==> r == []
    ensures imageUrl != [] && IsAbsolute(imageUrl) ==> r == imageUrl
  {
    if imageUrl == [] then []
    else if IsAbsolute(imageUrl) then imageUrl
    else ServerOrigin(base) + Rooted(imageUrl)
  }

  /** Whatever the host, an image path is joined to the origin the API lives on. */
  lemma FixedImageUrlJoinsOrigin(origin: string, imageUrl: string)
    requires imageUrl != [] && !IsAbsolute(imageUrl)
    ensures GetImageUrlFixed(origin + "/api", imageUrl) == origin + Rooted(imageUrl)
  {
    var base := origin + "/api";
    assert base[|base| - 4..] == "/api" && base[..|base| - 4] == origin;
  }

  /** Where the join as written works (a host not starting with `api`) the
      corrected join agrees with it; on an `api` host it keeps the host. */
  lemma FixedImageUrlAgrees(scheme: string, host: string, path: string)
    requires NoSlash(scheme) && NoSlash(host) && |host| >= 3
    requires IsPrefix("/", path)
    ensures !IsPrefix("api", host) ==>
      GetImageUrlFixed(scheme + "//" + host + "/api", path) == GetImageUrl(scheme + "//" + host + "/api", path)
    ensures GetImageUrlFixed(scheme + "//" + host + "/api", path) == scheme + "//" + host + path
  {
    assert path[0] == '/';
    assert scheme + "//" + host + "/api" == (scheme + "//" + host) + "/api";
    FixedImageUrlJoinsOrigin(scheme + "//" + host, path);
    if !IsPrefix("api", host) {
      PlainHostImageUrl(scheme, host, path);
    }
  }

  // --------------------------------------------------- query and form data

  /** The first value under a key, as `URLSearchParams.get` and
      `FormData.get` read it. */
  function Get<K(==), V>(pairs: seq<(K, V)>, key: K): (r: Option<V>)
    ensures r.Some? ==> (key, r.value) in pairs
    ensures r.None? ==> forall i :: 0 <= i < |pairs| ==> pairs[i].0 != key
  {
    if pairs == [] then None
    else if pairs[0].0 == key then Some(pairs[0].1)
    else Get(pairs[1..], key)
  }

  lemma {:induction false} GetAppend<K, V>(a: seq<(K, V)>, b: seq<(K, V)>, key: K)
    ensures Get(a + b, key) == if Get(a, key).Some? then Get(a, key) else Get(b, key)
  {
    if a == [] {
      assert a + b == b;
    } else {
      assert (a + b)[1..] == a[1..] + b;
      GetAppend(a[1..], b, key);
    }
  }

  /** `append(key, value)`: later reads of other keys, and of a key already
      present, are unchanged. */
  function Append<K(==,!new), V>(pairs: seq<(K, V)>, k: K, v: V): (r: seq<(K, V)>)
    ensures |r| == |pairs| + 1 && r[..|pairs|] == pairs && r[|pairs|] == (k, v)
    ensures forall key :: Get(r, key) == if Get(pairs, key).Some? then Get(pairs, key) else if k == key then Some(v) else None
  {
    var r := pairs + [(k, v)];
    forall key ensures Get(r, key) == if Get(pairs, key).Some? then Get(pairs, key) else if k == key then Some(v) else None {
      GetAppend(pairs, [(k, v)], key);
    }
    r
  }

  /** The optional filters `searchPlakalar` takes. */
  datatype ApiFilters = ApiFilters(q: Option<string>, location: Option<string>, sortBy: Option<string>)

  /** The keys of the search query string, in the order they are appended. */
  datatype SearchKey = QueryKey | LocationKey | SortByKey

  /** The name a search key is sent under. */
  function SearchKeyName(k: SearchKey): string {
    match k
    case QueryKey => "q"
    case LocationKey => "location"
    case SortByKey => "sortBy"
  }

  function SearchKeyRank(k: SearchKey): nat {
    match k
    case QueryKey => 0
    case LocationKey => 1
    case SortByKey => 2
  }

  /** The query string of `searchPlakalar`: each filter that is set and not
      empty, in the order `q`, `location`, `sortBy`. */
  method SearchParams(filters: ApiFilters) returns (params: seq<(SearchKey, string)>)
    ensures Get(params, QueryKey) == OrNull(filters.q)
    ensures Get(params, LocationKey) == OrNull(filters.location)
    ensures Get(params, SortByKey) == OrNull(filters.sortBy)
    ensures forall i, j :: 0 <= i < j < |params| ==> SearchKeyRank(params[i].0) < SearchKeyRank(params[j].0)
  {
    params := [];
    if Truthy(filters.q) {
      params := Append(params, QueryKey, filters.q.value);
    }
    if Truthy(filters.location) {
      params := Append(params, LocationKey, filters.location.value);
    }
    if Truthy(filters.sortBy) {
      params := Append(params, SortByKey, filters.sortBy.value);
    }
  }

  /** The keys of a plate's multipart form. */
  datatype FormKey = TitleKey | DescriptionKey | ImageKey | PlaceKey | PlateNumberKey

  /** The name a form key is sent under, and read under by the server. */
  function FormKeyName(k: FormKey): string {
    match k
    case TitleKey => "title"
    case DescriptionKey => "description"
    case ImageKey => "image"
    case PlaceKey => "location"
    case PlateNumberKey => "plateNumber"
  }

  /** A multipart form field. */
  datatype Field = TextField(text: string) | FileField(file: ImageFile)

  /** What the report form hands to `createPlaka`. */
  datatype CreatePlakaData = CreatePlakaData(
    title: string,
    description: string,
    location: Option<string>,
    plateNumber: Option<string>,
    image: ImageFile)

  /** A text field that is sent only when it is set and not empty. */
  function Optional(s: Option<string>): (r: Option<Field>)
    ensures r.Some? <==> Truthy(s)
    ensures r.Some? ==> r.value == TextField(s.value)
  {
    if Truthy(s) then Some(TextField(s.value)) else None
  }

  /** The form `createPlaka` posts: title, description and image always; the
      location and the plate number (as `plateNumber`) only when not empty. */
  method CreateFields(data: CreatePlakaData) returns (form: seq<(FormKey, Field)>)
    ensures Get(form, TitleKey) == Some(TextField(data.title))
    ensures Get(form, DescriptionKey) == Some(TextField(data.description))
    ensures Get(form, ImageKey) == Some(FileField(data.image))
    ensures Get(form, PlaceKey) == Optional(data.location)
    ensures Get(form, PlateNumberKey) == Optional(data.plateNumber)
  {
    form := Append([], TitleKey, TextField(data.title));
    form := Append(form, DescriptionKey, TextField(data.description));
    form := Append(form, ImageKey, FileField(data.image));
    form := AppendOptional(form, PlaceKey, data.location);
    form := AppendOptional(form, PlateNumberKey, data.plateNumber);
  }

  /** What an edit hands to `updatePlaka`: any subset of the fields. */
  datatype UpdatePlakaData = UpdatePlakaData(
    title: Option<string>,
    description: Option<string>,
    location: Option<string>,
    plateNumber: Option<string>,
    image: Option<ImageFile>)

  /** `if (value) formData.append(key, value)`. */
  method AppendOptional(form: seq<(FormKey, Field)>, key: FormKey, value: Option<string>) returns (r: seq<(FormKey, Field)>)
    requires Get(form, key).None?
    ensures forall k :: k != key ==> Get(r, k) == Get(form, k)
    ensures Get(r, key) == Optional(value)
  {
    r := form;
    if Truthy(value) {
      r := Append(form, key, TextField(value.value));
    }
  }

  /** The form `updatePlaka` sends: only the fields that are set and not
      empty, so an emptied title or description reaches the server as a
      missing field. */
  method UpdateFields(data: UpdatePlakaData) returns (form: seq<(FormKey, Field)>)
    ensures Get(form, TitleKey) == Optional(data.title)
    ensures Get(form, DescriptionKey) == Optional(data.description)
    ensures Get(form, PlaceKey) == Optional(data.location)
    ensures Get(form, PlateNumberKey) == Optional(data.plateNumber)
    ensures Get(form, ImageKey) == if data.image.Some? then Some(FileField(data.image.value)) else None
  {
    form := AppendOptional([], TitleKey, data.title);
    form := AppendOptional(form, DescriptionKey, data.description);
    form := AppendOptional(form, PlaceKey, data.location);
    form := AppendOptional(form, PlateNumberKey, data.plateNumber);
    if data.image.Some? {
      form := Append(form, ImageKey, FileField(data.image.value));
    }
  }

  // ---------------------------------------------------------------- errors

  const BackendDown: string := "Backend sunucusuna bağlanılamıyor. Lütfen backend sunucusunun çalıştığından emin olun."

  /** How a request ended: `fetch` rejected with a reason, or a reply came
      back with its status, its `ok` flag and the `error` and `message`
      fields of its JSON body. */
  datatype Reply = NetworkFailure(reason: string) | Answer(status: int, ok: bool, error: Option<string>, message: Option<string>)

  /** The catch clause: a message mentioning `Failed to fetch` becomes the
      backend-unreachable message. */
  function Rewrite(message: string): (r: string)
    ensures Contains(message, "Failed to fetch") ==> r == BackendDown
    ensures !Contains(message, "Failed to fetch") ==> r == message
  {
    if Contains(message, "Failed to fetch") then BackendDown else message
  }

  /** `a || b || c` over optional strings. */
  function FirstTruthy(a: Option<string>, b: Option<string>, c: string): (r: string)
    ensures Truthy(a) ==> r == a.value
    ensures !Truthy(a) && Truthy(b) ==> r == b.value
    ensures !Truthy(a) && !Truthy(b) ==> r == c
  {
    if Truthy(a) then a.value else if Truthy(b) then b.value else c
  }

  /** The message `request` (or `createPlaka`, with its own default) throws,
      or `None` when the reply is returned. */
  function RequestError(reply: Reply, fallback: string): (e: Option<string>)
    ensures e.None? <==> reply.Answer? && reply.ok
    ensures reply.Answer? && !reply.ok && reply.status == 0 ==> e == Some(BackendDown)
    ensures reply.Answer? && !reply.ok && reply.status != 0 ==>
      e == Some(Rewrite(FirstTruthy(reply.error, reply.message, fallback)))
    ensures reply.NetworkFailure? ==> e == Some(Rewrite(reply.reason))
  {
    match reply
    case NetworkFailure(reason) => Some(Rewrite(reason))
    case Answer(status, ok, error, message) =>
      if ok then None
      else if status == 0 then Some(BackendDown)
      else Some(Rewrite(FirstTruthy(error, message, fallback)))
  }

  /** The message `updatePlaka` throws: the body's `error` or its own
      default; a network failure passes through unchanged. */
  function UpdateError(reply: Reply): (e: Option<string>)
    ensures e.None? <==> reply.Answer? && reply.ok
    ensures reply.Answer? && !reply.ok ==> e == Some(FirstTruthy(reply.error, None, "Failed to update plaka"))
    ensures reply.NetworkFailure? ==> e == Some(reply.reason)
  {
    match reply
    case NetworkFailure(reason) => Some(reason)
    case Answer(_, ok, error, _) =>
      if ok then None else Some(FirstTruthy(error, None, "Failed to update plaka"))
  }

  /** A failed reply with an `error` field shows that field, not the
      `message` field. */
  lemma ErrorFieldWins(status: int, error: string, message: Option<string>, fallback: string)
    requires status != 0 && error != [] && !Contains(error, "Failed to fetch")
    ensures RequestError(Answer(status, false, Some(error), message), fallback) == Some(error)
  {
  }
}

/** The `/api/plakalar` routes: the upload stage (file filter, size limit
    and stored file name) and the decisions of the six request handlers over
    the record store and the set of image files on disk. A file on disk is
    named by the URL it is served under (`/uploads/<name>`). The clock and the
    random suffix of a file name are parameters; a route id is the integer
    the database compares with, or `None` when the path segment is not a
    number (no row can match it). */
module Routes {
  import opened Text
  import opened PlakaTypes
  import opened Validation
  import opened Database

  // ---------------------------------------------------------------- uploads

  /** A path with its trailing `/` characters removed. */
  function StripTrailingSlashes(s: string): (r: string)
    ensures IsPrefix(r, s) && (r == [] || r[|r| - 1] != '/')
    ensures forall i :: |r| <= i < |s| ==> s[i] == '/'
  {
    if s != [] && s[|s| - 1] == '/' then StripTrailingSlashes(s[..|s| - 1]) else s
  }

  /** The text after the last `/`. */
  function LastSegment(s: string): (r: string)
    ensures |r| <= |s| && r == s[|s| - |r|..]
    ensures forall i :: 0 <= i < |r| ==> r[i] != '/'
    ensures |r| < |s| ==> s[|s| - |r| - 1] == '/'
  {
    if s == [] || s[|s| - 1] == '/' then [] else LastSegment(s[..|s| - 1]) + [s[|s| - 1]]
  }

  /** The position of the last `.`. */
  function LastDot(s: string): (r: Option<nat>)
    ensures r.Some? ==> r.value < |s| && s[r.value] == '.' && forall i :: r.value < i < |s| ==> s[i] != '.'
    ensures r.None? ==> forall i :: 0 <= i < |s| ==> s[i] != '.'
  {
    if s == [] then None
    else if s[|s| - 1] == '.' then Some(|s| - 1)
    else LastDot(s[..|s| - 1])
  }

  /** Node's `path.extname` (POSIX): from the last `.` of the last path
      segment to its end; empty when the segment has no `.`, starts with its
      only `.`, or is `..`. */
  function ExtName(path: string): (r: string)
    ensures r == [] || r[0] == '.'
    ensures forall i :: 0 < i < |r| ==> r[i] != '.' && r[i] != '/'
  {
    var base := LastSegment(StripTrailingSlashes(path));
    match LastDot(base)
    case None => ""
    case Some(d) => if d == 0 || base == ".." then "" else base[d..]
  }

  lemma {:induction false} LastSegmentWhole(s: string)
    requires forall i :: 0 <= i < |s| ==> s[i] != '/'
    ensures LastSegment(s) == s
  {
    if s != [] {
      LastSegmentWhole(s[..|s| - 1]);
      assert s[..|s| - 1] + [s[|s| - 1]] == s;
    }
  }

  lemma {:induction false} LastDotAt(s: string, k: nat)
    requires k < |s| && s[k] == '.'
    requires forall i :: k < i < |s| ==> s[i] != '.'
    ensures LastDot(s) == Some(k)
  {
    if k < |s| - 1 {
      LastDotAt(s[..|s| - 1], k);
    }
  }

  /** The extension of a name without directories that does not end in `/`. */
  lemma ExtNameOfBase(s: string)
    requires s != [] && s[|s| - 1] != '/'
    requires forall i :: 0 <= i < |s| ==> s[i] != '/'
    ensures ExtName(s) == match LastDot(s)
      case None => ""
      case Some(d) => if d == 0 || s == ".." then "" else s[d..]
  {
    LastSegmentWhole(s);
  }

  /** A name `stem.ext` without directories has the extension `.ext`. */
  lemma ExtNameOfFileName(stem: string, tail: string)
    requires stem != [] && stem != "."
    requires forall i :: 0 <= i < |stem| ==> stem[i] != '/'
    requires forall i :: 0 <= i < |tail| ==> tail[i] != '.' && tail[i] != '/'
    ensures ExtName(stem + "." + tail) == "." + tail
  {
    var d := "." + tail;
    var s := stem + d;
    var k := |stem|;
    assert stem + "." + tail == s;
    assert s[k..] == d;
    forall i | 0 <= i < |d|
      ensures d[i] != '/' && (i > 0 ==> d[i] != '.')
    {
      if i > 0 {
        assert d[i] == tail[i - 1];
      }
    }
    forall i | 0 <= i < |s|
      ensures s[i] != '/' && (i > k ==> s[i] != '.')
    {
      if i < k {
        assert s[i] == stem[i];
      } else {
        assert s[i] == d[i - k];
      }
    }
    assert s != ".." by {
      if |s| == 2 {
        assert k == 1 && s[0] == stem[0] && stem == [stem[0]];
      }
    }
    ExtNameAtLastDot(s, k);
  }

  /** A name without directories whose last `.` is not its first character
      has the extension that starts there. */
  lemma ExtNameAtLastDot(s: string, k: nat)
    requires 0 < k < |s| && s[k] == '.' && s != ".."
    requires forall i :: 0 <= i < |s| ==> s[i] != '/'
    requires forall i :: k < i < |s| ==> s[i] != '.'
    ensures ExtName(s) == s[k..]
  {
    ExtNameOfBase(s);
    LastDotAt(s, k);
  }

  /** A name that starts with its only `.` (a hidden file) has no extension. */
  lemma ExtNameOfDotFile(tail: string)
    requires tail != []
    requires forall i :: 0 <= i < |tail| ==> tail[i] != '.' && tail[i] != '/'
    ensures ExtName("." + tail) == ""
  {
    var s := "." + tail;
    assert forall i :: 0 < i < |s| ==> s[i] == tail[i - 1];
    ExtNameOfBase(s);
    LastDotAt(s, 0);
  }

  /** The test `/jpeg|jpg|png|webp/`: one of the four words occurs anywhere. */
  predicate NamesImageType(s: string) {
    Contains(s, "jpeg") || Contains(s, "jpg") || Contains(s, "png") || Contains(s, "webp")
  }

  /** Multer's `fileFilter`: both the lower-cased extension of the original
      name and the MIME type pass the test. */
  predicate FileFilter(file: ImageFile) {
    NamesImageType(Lower(ExtName(file.name))) && NamesImageType(file.mimeType)
  }

  /** Every MIME type the report form accepts passes the MIME half of the
      server's filter. */
  lemma FormTypesPassFilter(file: ImageFile)
    requires file.mimeType in AllowedImageTypes
    ensures NamesImageType(file.mimeType)
  {
    var m := file.mimeType;
    assert m[6..] == m[6..];
    if m == "image/jpeg" {
      assert IsPrefix("jpeg", m[6..]);
    } else if m == "image/jpg" {
      assert IsPrefix("jpg", m[6..]);
    } else if m == "image/png" {
      assert IsPrefix("png", m[6..]);
    } else {
      assert IsPrefix("webp", m[6..]);
    }
  }

  /** Multer's `fileSize` limit: 5 MiB. */
  const UploadLimit: int := 5 * 1024 * 1024

  const NamePrefix: string := "plaka-"

  /** The stored file name: `plaka-`, then its stamp. */
  function UploadName(ts: nat, rnd: nat, originalName: string): string {
    NamePrefix + Stamp(ts, rnd, originalName)
  }

  /** The clock, `-`, the random suffix and the extension of the original name. */
  function Stamp(ts: nat, rnd: nat, originalName: string): string {
    Decimal(ts) + "-" + Decimal(rnd) + ExtName(originalName)
  }

  const UploadsPath: string := "/uploads/"

  /** The URL a stored file is served under, kept as its `image_url`. */
  function ImageUrl(fileName: string): (url: string)
    ensures IsPrefix(UploadsPath, url) && url[|UploadsPath|..] == fileName
  {
    UploadsPath + fileName
  }

  /** The length of the run of digits that starts `s`. */
  function DigitRun(s: string): (n: nat)
    ensures n <= |s| && AllDigits(s[..n]) && (n == |s| || !IsDigit(s[n]))
  {
    if s != [] && IsDigit(s[0]) then 1 + DigitRun(s[1..]) else 0
  }

  lemma {:induction false} DigitRunOf(d: string, rest: string)
    requires AllDigits(d) && (rest == [] || !IsDigit(rest[0]))
    ensures DigitRun(d + rest) == |d|
  {
    if d == [] {
      assert d + rest == rest;
    } else {
      assert (d + rest)[1..] == d[1..] + rest;
      DigitRunOf(d[1..], rest);
    }
  }

  /** Reading a stored file name back into clock, suffix and extension. */
  function ParseUploadName(name: string): Option<(nat, nat, string)> {
    if !IsPrefix(NamePrefix, name) then None else ParseStamp(name[|NamePrefix|..])
  }

  /** Reading a stamp `<digits>-<digits><ext>` back. */
  function ParseStamp(rest: string): Option<(nat, nat, string)> {
    var n := DigitRun(rest);
    if n == 0 || n == |rest| || rest[n] != '-' then None
    else
      var rest2 := rest[n + 1..];
      var m := DigitRun(rest2);
      if m == 0 then None
      else Some((DigitsValue(rest[..n]), DigitsValue(rest2[..m]), rest2[m..]))
  }

  /** Parsing `<digits>-<digits><ext>` when `ext` does not start with a digit. */
  lemma ParseStampOf(a: string, b: string, e: string)
    requires a != [] && AllDigits(a) && b != [] && AllDigits(b)
    requires e == [] || !IsDigit(e[0])
    ensures ParseStamp(a + "-" + b + e) == Some((DigitsValue(a), DigitsValue(b), e))
  {
    var rest := a + ("-" + (b + e));
    assert a + "-" + b + e == rest;
    SplitAtDash(a, b + e);
    DigitRunOf(a, "-" + (b + e));
    DigitRunOf(b, e);
    PrefixOfConcat(b, e);
    assert (b + e)[..|b|] == b;
  }

  /** The pieces of `a-t` around its dash. */
  lemma SplitAtDash(a: string, t: string)
    ensures var r := a + ("-" + t); r[..|a|] == a && r[|a|] == '-' && r[|a| + 1..] == t
  {
    var r := a + ("-" + t);
    assert r[|a|..] == "-" + t;
    assert r[|a| + 1..] == r[|a|..][1..];
  }

  /** Parsing `plaka-<digits>-<digits><ext>` when `ext` does not start with a digit. */
  lemma ParseUploadNameOf(a: string, b: string, e: string)
    requires a != [] && AllDigits(a) && b != [] && AllDigits(b)
    requires e == [] || !IsDigit(e[0])
    ensures ParseUploadName(NamePrefix + (a + "-" + b + e)) == Some((DigitsValue(a), DigitsValue(b), e))
  {
    var stamp := a + "-" + b + e;
    PrefixOfConcat(NamePrefix, stamp);
    ParseStampOf(a, b, e);
  }

  /** `p` starts `p + t`, and `t` is what follows it. */
  lemma PrefixOfConcat(p: string, t: string)
    ensures IsPrefix(p, p + t) && (p + t)[|p|..] == t
  {
    assert (p + t)[..|p|] == p;
  }

  /** A stored file name determines the clock, the suffix and the extension
      it was made from. */
  lemma UploadNameRoundTrip(ts: nat, rnd: nat, originalName: string)
    ensures ParseUploadName(UploadName(ts, rnd, originalName)) == Some((ts, rnd, ExtName(originalName)))
  {
    ParseUploadNameOf(Decimal(ts), Decimal(rnd), ExtName(originalName));
    DecimalRoundTrip(ts);
    DecimalRoundTrip(rnd);
  }

  /** Different clocks or suffixes give different file names. */
  lemma UploadNameInjective(ts1: nat, rnd1: nat, ts2: nat, rnd2: nat, originalName1: string, originalName2: string)
    requires UploadName(ts1, rnd1, originalName1) == UploadName(ts2, rnd2, originalName2)
    ensures ts1 == ts2 && rnd1 == rnd2 && ExtName(originalName1) == ExtName(originalName2)
  {
    UploadNameRoundTrip(ts1, rnd1, originalName1);
    UploadNameRoundTrip(ts2, rnd2, originalName2);
  }

  // --------------------------------------------------------------- handlers

  /** A file in a multipart request, with the clock and random suffix the
      storage engine draws when naming it. */
  datatype Upload = Upload(file: ImageFile, ts: nat, rnd: nat)

  /** What the upload stage does with a request: no file part, a file
      stored under a URL, or an error passed to the application's error
      handler (filter refusal or size limit). */
  datatype Received = NoFile | Stored(url: string) | Rejected

  lemma PrefixPrepend(a: string, p: string, s: string)
    requires IsPrefix(p, s)
    ensures IsPrefix(a + p, a + s)
  {
    assert (a + s)[..|a + p|] == a + s[..|p|];
  }

  lemma UploadUrlPrefix(ts: nat, rnd: nat, originalName: string)
    ensures IsPrefix("/uploads/plaka-", ImageUrl(UploadName(ts, rnd, originalName)))
  {
    UploadNamePrefix(ts, rnd, originalName);
    PrefixPrepend(UploadsPath, NamePrefix, UploadName(ts, rnd, originalName));
    UploadUrlStart();
  }

  /** Every stored name starts with `plaka-`. */
  lemma UploadNamePrefix(ts: nat, rnd: nat, originalName: string)
    ensures IsPrefix(NamePrefix, UploadName(ts, rnd, originalName))
  {
    PrefixOfConcat(NamePrefix, Stamp(ts, rnd, originalName));
  }

  lemma UploadUrlStart()
    ensures UploadsPath + NamePrefix == "/uploads/plaka-"
  {
  }

  function Receiving(upload: Option<Upload>): (got: Received)
    ensures got.Rejected? <==> upload.Some? && !(FileFilter(upload.value.file) && upload.value.file.size <= UploadLimit)
    ensures got.NoFile? <==> upload.None?
    ensures got.Stored? ==> IsPrefix("/uploads/plaka-", got.url)
  {
    match upload
    case None => NoFile
    case Some(u) =>
      if FileFilter(u.file) && u.file.size <= UploadLimit then
        UploadUrlPrefix(u.ts, u.rnd, u.file.name);
        Stored(ImageUrl(UploadName(u.ts, u.rnd, u.file.name)))
      else Rejected
  }

  /** The JSON body of a response; `data`, `row` and `saved` are its `data` field. */
  datatype Body =
    | Listing(data: seq<PlakaPost>, count: int)
    | Found(row: PlakaPost)
    | Saved(message: string, saved: Option<PlakaPost>)
    | Removed(message: string)
    | Failure(error: string)

  datatype Response = Response(status: int, body: Body)

  const NotFound := Response(404, Failure("Plaka bulunamadı"))
  const Required := Response(400, Failure("Başlık, açıklama ve resim gereklidir"))
  const UpdateFailed := Response(500, Failure("Plaka güncellenirken hata oluştu"))
  /** The application's error handler (its `message` field, which depends on
      the environment, is not modelled). */
  const Crashed := Response(500, Failure("Something went wrong!"))
  const AddedMessage := "Plaka başarıyla eklendi"
  const UpdatedMessage := "Plaka başarıyla güncellendi"
  const DeletedMessage := "Plaka başarıyla silindi"

  /** The `sortBy` query parameter with its default. */
  function SortParam(sortBy: Option<string>): (r: string)
    ensures sortBy.None? ==> r == "newest"
    ensures sortBy.Some? ==> r == sortBy.value
  {
    if sortBy.Some? then sortBy.value else "newest"
  }

  /** Whether a route id names a row. The path's `:id` is text; SQLite's
      integer affinity reads "5", "05" and "5.0" alike as row 5, which is
      `Some(5)` here, while text that is no integer ("abc") names no row and
      is `None`. */
  predicate Names(rows: map<int, PlakaPost>, id: Option<int>) {
    id.Some? && id.value in rows
  }

  /** Every row's image is on disk, and no two rows share an image. */
  ghost predicate ConsistentState(rows: map<int, PlakaPost>, files: set<string>) {
    && (forall id :: id in rows ==> rows[id].imageUrl in files)
    && (forall i, j :: i in rows && j in rows && i != j ==> rows[i].imageUrl != rows[j].imageUrl)
  }

  /** A file written to disk breaks no row. */
  lemma ConsistentUpload(rows: map<int, PlakaPost>, files: set<string>, url: string)
    requires ConsistentState(rows, files)
    ensures ConsistentState(rows, files + {url})
  {
  }

  /** A new row whose image was not used before keeps the store consistent. */
  lemma ConsistentAdd(rows: map<int, PlakaPost>, files: set<string>, id: int, row: PlakaPost)
    requires ConsistentState(rows, files) && id !in rows && row.imageUrl !in files
    ensures ConsistentState(rows[id := row], files + {row.imageUrl})
  {
  }

  /** Editing a row without touching its image keeps the store consistent. */
  lemma ConsistentEdit(rows: map<int, PlakaPost>, files: set<string>, id: int, row: PlakaPost)
    requires ConsistentState(rows, files) && id in rows && row.imageUrl == rows[id].imageUrl
    ensures ConsistentState(rows[id := row], files)
  {
  }

  /** Moving a row to a new image and deleting its old one keeps the store
      consistent. */
  lemma ConsistentReplace(rows: map<int, PlakaPost>, files: set<string>, id: int, row: PlakaPost)
    requires ConsistentState(rows, files) && id in rows && row.imageUrl !in files
    ensures ConsistentState(rows[id := row], files + {row.imageUrl} - {rows[id].imageUrl})
  {
  }

  /** Deleting a row and its image keeps the store consistent. */
  lemma ConsistentRemove(rows: map<int, PlakaPost>, files: set<string>, id: int)
    requires ConsistentState(rows, files) && id in rows
    ensures ConsistentState(rows - {id}, files - {rows[id].imageUrl})
  {
  }

  class PlakaRouter {
    const store: PlakaStore
    /** The image files on disk, by URL. */
    var files: set<string>

    ghost predicate Valid()
      reads this, store
    {
      store.Valid()
    }

    ghost predicate Consistent()
      reads this, store
    {
      ConsistentState(store.rows, files)
    }

    constructor (store: PlakaStore, files: set<string>)
      requires store.Valid()
      ensures Valid() && this.store == store && this.files == files
    {
      this.store := store;
      this.files := files;
    }

    /** The upload stage: a file that passes the filter and the size limit
        is written to disk before the handler runs. */
    method Receive(upload: Option<Upload>) returns (got: Received)
      modifies this
      ensures got == Receiving(upload)
      ensures files == if got.Stored? then old(files) + {got.url} else old(files)
    {
      got := Receiving(upload);
      if got.Stored? {
        files := files + {got.url};
      }
    }

    /** Deleting an image file if it exists. */
    method Unlink(url: string)
      modifies this
      ensures files == old(files) - {url}
    {
      if url in files {
        files := files - {url};
      } else {
        assert files - {url} == files;
      }
    }

    /** What both `PUT /:id` handlers do first: the upload stage, then the
        lookup of the row (none when the upload was refused). */
    method Prepare(id: Option<int>, upload: Option<Upload>) returns (got: Received, existing: Option<PlakaPost>)
      requires Valid()
      modifies this
      ensures got == Receiving(upload)
      ensures files == if got.Stored? then old(files) + {got.url} else old(files)
      ensures existing.Some? <==> !got.Rejected? && Names(store.rows, id)
      ensures existing.Some? ==> existing.value == store.rows[id.value]
      ensures old(Consistent()) ==> Consistent()
    {
      got := Receive(upload);
      if got.Stored? && old(Consistent()) {
        ConsistentUpload(store.rows, old(files), got.url);
      }
      existing := None;
      if !got.Rejected? && id.Some? {
        existing := store.GetById(id.value);
      }
    }

    /** `GET /search`: the matching rows and their number. */
    method SearchRoute(q: Option<string>, location: Option<string>, sortBy: Option<string>) returns (resp: Response)
      requires Valid()
      ensures resp.status == 200 && resp.body.Listing? && resp.body.count == |resp.body.data|
      ensures Ordered(resp.body.data, SortParam(sortBy) != "oldest")
      ensures forall p :: p in resp.body.data <==> InTable(store.rows, p) && QueryKeeps(q, p) && LocationKeeps(location, p)
    {
      var rows := store.Search(q, location, SortParam(sortBy));
      resp := Response(200, Listing(rows, |rows|));
    }

    /** `GET /`: every row, newest first, and their number. */
    method ListRoute() returns (resp: Response)
      requires Valid()
      ensures resp.status == 200 && resp.body.Listing? && resp.body.count == |resp.body.data|
      ensures Ordered(resp.body.data, true)
      ensures forall p :: p in resp.body.data <==> InTable(store.rows, p)
    {
      var rows := store.GetAll();
      resp := Response(200, Listing(rows, |rows|));
    }

    /** `GET /:id`: the row, or 404. */
    method GetRoute(id: Option<int>) returns (resp: Response)
      requires Valid()
      ensures !Names(store.rows, id) ==> resp == NotFound
      ensures Names(store.rows, id) ==> resp == Response(200, Found(store.rows[id.value]))
    {
      if id.None? {
        return NotFound;
      }
      var row := store.GetById(id.value);
      if row.None? {
        return NotFound;
      }
      resp := Response(200, Found(row.value));
    }

    /** `POST /`: 400 without a title, a description or a stored file (an
        uploaded file stays on disk); otherwise a new row, answered with 201
        and the row as read back. */
    method PostRoute(title: Option<string>, description: Option<string>, location: Option<string>,
                     plateNumber: Option<string>, upload: Option<Upload>, now: int)
      returns (resp: Response)
      requires Valid()
      modifies this, store
      ensures Valid()
      ensures var got := Receiving(upload);
        && files == (if got.Stored? then old(files) + {got.url} else old(files))
        && (got.Rejected? ==> resp == Crashed && store.rows == old(store.rows) && store.issued == old(store.issued))
        && (!got.Rejected? && (!Truthy(title) || !Truthy(description) || got.NoFile?) ==>
              resp == Required && store.rows == old(store.rows) && store.issued == old(store.issued))
        && (got.Stored? && Truthy(title) && Truthy(description) ==>
              && resp.status == 201 && resp.body.Saved? && resp.body.message == AddedMessage && resp.body.saved.Some?
              && var row := resp.body.saved.value;
              && row == PlakaPost(row.id, title.value, description.value, got.url, OrNull(location), OrNull(plateNumber), now, now)
              && row.id !in old(store.issued) && store.issued == old(store.issued) + {row.id}
              && store.rows == old(store.rows)[row.id := row])
      ensures var got := Receiving(upload);
        old(Consistent()) && (got.Stored? ==> got.url !in old(files)) ==> Consistent()
    {
      ghost var rows0, files0 := store.rows, files;
      var got := Receive(upload);
      if got.Rejected? {
        return Crashed;
      }
      if !Truthy(title) || !Truthy(description) || got.NoFile? {
        if ConsistentState(rows0, files0) && got.Stored? {
          ConsistentUpload(rows0, files0, got.url);
        }
        return Required;
      }
      var newId := store.Add(title.value, description.value, got.url, OrNull(location), OrNull(plateNumber), now);
      if ConsistentState(rows0, files0) && got.url !in files0 {
        ConsistentAdd(rows0, files0, newId, store.rows[newId]);
      }
      var newRow := store.GetById(newId);
      resp := Response(201, Saved(AddedMessage, newRow));
    }

    /** `PUT /:id` as written: with a new file, the old image is deleted
        before the row is updated, so an update the database refuses (a
        missing title or description) leaves the row pointing at a deleted
        file. */
    method PutRoute(id: Option<int>, title: Option<string>, description: Option<string>, location: Option<string>,
                    plateNumber: Option<string>, upload: Option<Upload>)
      returns (resp: Response)
      requires Valid()
      modifies this, store
      ensures Valid() && store.issued == old(store.issued)
      ensures var got := Receiving(upload);
        var uploaded := if got.Stored? then old(files) + {got.url} else old(files);
        && (got.Rejected? ==> resp == Crashed && store.rows == old(store.rows) && files == old(files))
        && (!got.Rejected? && !Names(old(store.rows), id) ==> resp == NotFound && store.rows == old(store.rows) && files == uploaded)
        && (!got.Rejected? && Names(old(store.rows), id) ==>
              var o := old(store.rows)[id.value];
              && files == (if got.Stored? then uploaded - {o.imageUrl} else uploaded)
              && (title.None? || description.None? ==> resp == UpdateFailed && store.rows == old(store.rows))
              && (title.Some? && description.Some? ==>
                    var n := o.(title := title.value, description := description.value,
                                imageUrl := if got.Stored? then got.url else o.imageUrl,
                                location := OrNull(location), plateNumber := OrNull(plateNumber));
                    store.rows == old(store.rows)[id.value := n] && resp == Response(200, Saved(UpdatedMessage, Some(n)))))
      ensures var got := Receiving(upload);
        old(Consistent()) && (got.Stored? ==> got.url !in old(files) && title.Some? && description.Some?) ==> Consistent()
    {
      ghost var rows0, files0 := store.rows, files;
      var got, existing := Prepare(id, upload);
      if got.Rejected? {
        return Crashed;
      }
      if existing.None? {
        return NotFound;
      }
      var imageUrl := existing.value.imageUrl;
      if got.Stored? {
        imageUrl := got.url;
        Unlink(existing.value.imageUrl);
      }
      var r := store.Update(id.value, title, description, Some(imageUrl), OrNull(location), OrNull(plateNumber));
      if r.Err? {
        return UpdateFailed;
      }
      if ConsistentState(rows0, files0) {
        if got.Stored? {
          if got.url !in files0 {
            ConsistentReplace(rows0, files0, id.value, store.rows[id.value]);
          }
        } else {
          ConsistentEdit(rows0, files0, id.value, store.rows[id.value]);
        }
      }
      var updated := store.GetById(id.value);
      resp := Response(200, Saved(UpdatedMessage, updated));
    }

    /** `PUT /:id` with the old image deleted only once the update has
        succeeded and the row no longer uses it. */
    method PutSafely(id: Option<int>, title: Option<string>, description: Option<string>, location: Option<string>,
                     plateNumber: Option<string>, upload: Option<Upload>)
      returns (resp: Response)
      requires Valid()
      modifies this, store
      ensures Valid() && store.issued == old(store.issued)
      ensures var got := Receiving(upload);
        var uploaded := if got.Stored? then old(files) + {got.url} else old(files);
        && (got.Rejected? ==> resp == Crashed && store.rows == old(store.rows) && files == old(files))
        && (!got.Rejected? && !Names(old(store.rows), id) ==> resp == NotFound && store.rows == old(store.rows) && files == uploaded)
        && (!got.Rejected? && Names(old(store.rows), id) ==>
              var o := old(store.rows)[id.value];
              && (title.None? || description.None? ==> resp == UpdateFailed && store.rows == old(store.rows) && files == uploaded)
              && (title.Some? && description.Some? ==>
                    var n := o.(title := title.value, description := description.value,
                                imageUrl := if got.Stored? then got.url else o.imageUrl,
                                location := OrNull(location), plateNumber := OrNull(plateNumber));
                    && store.rows == old(store.rows)[id.value := n] && resp == Response(200, Saved(UpdatedMessage, Some(n)))
                    && files == (if got.Stored? && got.url != o.imageUrl then uploaded - {o.imageUrl} else uploaded)))
      ensures var got := Receiving(upload);
        old(Consistent()) && (got.Stored? ==> got.url !in old(files)) ==> Consistent()
    {
      ghost var rows0, files0 := store.rows, files;
      var got, existing := Prepare(id, upload);
      if got.Rejected? {
        return Crashed;
      }
      if existing.None? {
        return NotFound;
      }
      var imageUrl := if got.Stored? then got.url else existing.value.imageUrl;
      var r := store.Update(id.value, title, description, Some(imageUrl), OrNull(location), OrNull(plateNumber));
      if r.Err? {
        return UpdateFailed;
      }
      if ConsistentState(rows0, files0) {
        if got.Stored? {
          if got.url !in files0 {
            ConsistentReplace(rows0, files0, id.value, store.rows[id.value]);
          }
        } else {
          ConsistentEdit(rows0, files0, id.value, store.rows[id.value]);
        }
      }
      if got.Stored? && existing.value.imageUrl != imageUrl {
        Unlink(existing.value.imageUrl);
      }
      var updated := store.GetById(id.value);
      resp := Response(200, Saved(UpdatedMessage, updated));
    }

    /** `DELETE /:id`: 404 for an unknown id; otherwise the image file is
        deleted, then the row. */
    method DeleteRoute(id: Option<int>) returns (resp: Response)
      requires Valid()
      modifies this, store
      ensures Valid() && store.issued == old(store.issued)
      ensures !Names(old(store.rows), id) ==> resp == NotFound && store.rows == old(store.rows) && files == old(files)
      ensures Names(old(store.rows), id) ==>
        && resp == Response(200, Removed(DeletedMessage))
        && store.rows == old(store.rows) - {id.value}
        && files == old(files) - {old(store.rows)[id.value].imageUrl}
      ensures old(Consistent()) ==> Consistent()
    {
      if id.None? {
        return NotFound;
      }
      var existing := store.GetById(id.value);
      if existing.None? {
        return NotFound;
      }
      Unlink(existing.value.imageUrl);
      var _ := store.Delete(id.value);
      if old(Consistent()) {
        ConsistentRemove(old(store.rows), old(files), id.value);
      }
      resp := Response(200, Removed(DeletedMessage));
    }
  }

  /** A row reported with one photo and then edited with a new photo but
      without a title, as `PUT /:id` is written: the update fails with 500,
      and the row still refers to its first image, which is no longer on
      disk. */
  method PutAfterFailedUpdate(title: string, description: string, first: Upload, second: Upload)
    returns (resp: Response, rowUrl: string, onDisk: bool)
    requires title != "" && description != ""
    requires Receiving(Some(first)).Stored? && Receiving(Some(second)).Stored?
    ensures resp == UpdateFailed && !onDisk
  {
    var store := new PlakaStore();
    var router := new PlakaRouter(store, {});
    var created := router.PostRoute(Some(title), Some(description), None, None, Some(first), 0);
    var id := created.body.saved.value.id;
    resp := router.PutRoute(Some(id), None, Some(description), None, None, Some(second));
    rowUrl := store.rows[id].imageUrl;
    onDisk := rowUrl in router.files;
  }

  /** The same requests with the corrected handler: the update still fails,
      and the row's image is still on disk. */
  method PutSafelyAfterFailedUpdate(title: string, description: string, first: Upload, second: Upload)
    returns (resp: Response, rowUrl: string, onDisk: bool)
    requires title != "" && description != ""
    requires Receiving(Some(first)).Stored? && Receiving(Some(second)).Stored?
    ensures resp == UpdateFailed && onDisk
  {
    var store := new PlakaStore();
    var router := new PlakaRouter(store, {});
    var created := router.PostRoute(Some(title), Some(description), None, None, Some(first), 0);
    var id := created.body.saved.value.id;
    resp := router.PutSafely(Some(id), None, Some(description), None, None, Some(second));
    rowUrl := store.rows[id].imageUrl;
    onDisk := rowUrl in router.files;
  }
}

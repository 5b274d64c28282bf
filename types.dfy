/** The records the client and the server exchange: a found-plate post (one
    row of the `plaka_posts` table, sent to the client as JSON), the search
    filters of the listing page and the report form. Timestamps are integer
    ticks; an optional text field is `None` where the source has `null` or
    `undefined`. */
module PlakaTypes {
  import opened Text

  datatype PlakaPost = PlakaPost(
    id: int,
    title: string,
    description: string,
    imageUrl: string,
    location: Option<string>,
    plateNumber: Option<string>,
    createdAt: int,
    updatedAt: int)

  datatype SortOrder = Newest | Oldest

  datatype SearchFilters = SearchFilters(query: string, location: string, sortBy: SortOrder)

  /** A file chosen in the browser: its name, its MIME type and its size in bytes. */
  datatype ImageFile = ImageFile(name: string, mimeType: string, size: int)

  datatype PlakaFormData = PlakaFormData(
    title: string,
    description: string,
    image: Option<ImageFile>,
    location: string,
    plateNumber: string)

  /** JavaScript truthiness of an optional string: present and not empty. */
  predicate Truthy(s: Option<string>) {
    s.Some? && s.value != ""
  }

  /** `s || null` (and `s || undefined`): an empty string becomes absent. */
  function OrNull(s: Option<string>): (r: Option<string>)
    ensures r.Some? <==> Truthy(s)
    ensures r.Some? ==> r == s
  {
    if Truthy(s) then s else None
  }
}

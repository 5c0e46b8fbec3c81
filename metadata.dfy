/** The note's front matter and its normalisation
    (crates/mdfmt-core/src/note/metadata.rs). Dates, date-times and
    arbitrary YAML values are kept opaque: the model compares them but never
    looks inside. */
module NoteMetadata {
  import opened Wrappers
  import Toc
  import ModelKinds

  /** `chrono::NaiveDate`. */
  type Date(==)
  /** `chrono::DateTime<Utc>`. */
  type DateTime(==)
  /** `serde_yaml::Value`. */
  type YamlValue(==)

  datatype BookmarkId = BookmarkId(value: string)

  datatype NoteStatus = Todo | InProgress | Done | NotPlanned | Archived

  datatype Bookmark = Bookmark(
    id: Option<BookmarkId>,
    image: Option<string>,
    title: Option<string>,
    toc: Option<string>,
    journalDate: Option<Date>,
    createdAt: Option<DateTime>,
    updatedAt: Option<DateTime>,
    url: Option<string>,
    others: map<string, YamlValue>)

  datatype Meta = Meta(
    title: Option<string>,
    description: Option<string>,
    path: Option<string>,
    bookmark: Option<Bookmark>,
    link: Option<string>,
    toc: Option<string>,
    status: Option<NoteStatus>,
    kind: Option<ModelKinds.NoteKind>,
    journalDate: Option<Date>,
    createdAt: Option<DateTime>,
    updatedAt: Option<DateTime>,
    author: Option<seq<string>>,
    tags: Option<seq<string>>,
    others: map<string, YamlValue>)

  /** Front matter that decoded into known fields, or the raw text of front
      matter that did not. */
  datatype Metadata = Meta(meta: Meta) | Raw(raw: string)

  const EmptyBookmark: Bookmark :=
    Bookmark(None, None, None, None, None, None, None, None, map[])

  /** `Meta::default`. */
  const EmptyMeta: Meta :=
    Meta.Meta(None, None, None, None, None, None, None, None, None, None, None, None, None, map[])

  // ---------------------------------------------------------------------
  // Status

  function StatusName(s: NoteStatus): string {
    match s
    case Todo => "todo"
    case InProgress => "in progress"
    case Done => "done"
    case NotPlanned => "not planned"
    case Archived => "archived"
  }

  /** `NoteStatus::from_str`: every unrecognised name means `todo`. */
  function StatusFromName(s: string): NoteStatus {
    if s == "todo" then Todo
    else if s == "in progress" then InProgress
    else if s == "done" then Done
    else if s == "not planned" then NotPlanned
    else if s == "archived" then Archived
    else Todo
  }

  lemma StatusFromNameOfName(s: NoteStatus)
    ensures StatusFromName(StatusName(s)) == s
  {
  }

  lemma StatusFromNameUnknown(s: string)
    requires forall st: NoteStatus :: StatusName(st) != s
    ensures StatusFromName(s) == Todo
  {
    assert StatusName(Todo) != s && StatusName(InProgress) != s && StatusName(Done) != s;
    assert StatusName(NotPlanned) != s && StatusName(Archived) != s;
  }

  // ---------------------------------------------------------------------
  // Decoding and encoding, with the YAML codec as a parameter

  /** `Metadata::from_str`: the decoded fields, or the decoder's error. */
  function MetadataFromStr(s: string, decode: string -> Result<Meta>): (r: Result<Metadata>)
    ensures r.Ok? <==> decode(s).Ok?
    ensures r.Ok? ==> r.value == Metadata.Meta(decode(s).value)
  {
    var m :- decode(s);
    Ok(Metadata.Meta(m))
  }

  /** `Metadata::to_md`: the encoded fields, or the raw text with a line
      break. */
  function MetadataToMd(md: Metadata, encode: Meta -> Result<string>): (r: Result<string>)
    ensures md.Raw? ==> r == Ok(md.raw + "\n")
    ensures md.Meta? ==> r == encode(md.meta)
  {
    match md
    case Meta(m) => encode(m)
    case Raw(v) => Ok(v + "\n")
  }

  /** With a YAML codec that reads back what it writes, front matter
      written by `to_md` is read back by `from_str` unchanged; when the
      codec cannot write it, `to_md` fails with the codec's error. */
  lemma FrontMatterRoundTrip(m: Meta, decode: string -> Result<Meta>, encode: Meta -> Result<string>)
    requires encode(m).Ok? ==> decode(encode(m).value) == Ok(m)
    ensures encode(m).Ok? ==> MetadataToMd(Metadata.Meta(m), encode).Ok?
    ensures encode(m).Ok? ==>
      MetadataFromStr(MetadataToMd(Metadata.Meta(m), encode).value, decode) == Ok(Metadata.Meta(m))
    ensures encode(m).Err? ==> MetadataToMd(Metadata.Meta(m), encode) == Err(encode(m).error)
  {
  }

  // ---------------------------------------------------------------------
  // Normalisation

  /** `Bookmark::toc`: a bookmark holding only an outline. */
  function BookmarkWithToc(v: string): Bookmark {
    EmptyBookmark.(toc := Some(v))
  }

  /** `Bookmark::normalize`: only the identity, the image and the unknown
      keys are kept, and a bookmark with none of them disappears. */
  function BookmarkNormalize(b: Bookmark): Option<Bookmark> {
    if b.id.None? && b.image.None? && b.others == map[] then None
    else Some(EmptyBookmark.(id := b.id, image := b.image, others := b.others))
  }

  /** `Option::or_else`: the own value, else the fallback. */
  function OrElse<T>(own: Option<T>, fallback: Option<T>): (r: Option<T>)
    ensures own.Some? ==> r == own
    ensures own.None? ==> r == fallback
  {
    if own.Some? then own else fallback
  }

  /** The bookmark's field `f`, if there is a bookmark. */
  function FromBookmark<T>(b: Option<Bookmark>, f: Bookmark -> Option<T>): Option<T> {
    if b.Some? then f(b.value) else None
  }

  /** `Meta::normalize`: title, dates and link are taken from the bookmark
      where the note has none, the bookmark is normalised, the outline is
      dropped, and front matter left empty disappears. */
  function MetaNormalize(m: Meta): Option<Meta> {
    var b := m.bookmark;
    var res := m.(
      title := OrElse(m.title, FromBookmark(b, (x: Bookmark) => x.title)),
      journalDate := OrElse(m.journalDate, FromBookmark(b, (x: Bookmark) => x.journalDate)),
      createdAt := OrElse(m.createdAt, FromBookmark(b, (x: Bookmark) => x.createdAt)),
      updatedAt := OrElse(m.updatedAt, FromBookmark(b, (x: Bookmark) => x.updatedAt)),
      link := OrElse(m.link, FromBookmark(b, (x: Bookmark) => x.url)),
      bookmark := if b.Some? then BookmarkNormalize(b.value) else None,
      toc := None);
    if res == EmptyMeta then None else Some(res)
  }

  /** `Metadata::normalize`: raw front matter is kept as it is. */
  function MetadataNormalize(md: Metadata): Option<Metadata> {
    match md
    case Meta(m) => if MetaNormalize(m).Some? then Some(Metadata.Meta(MetaNormalize(m).value)) else None
    case Raw(v) => Some(md)
  }

  /** `Meta::parse_toc` and `Bookmark::parse_toc`: the outline, if any. The
      outline parser does not fail. */
  function ParseToc(toc: Option<string>): (r: Option<seq<Toc.Node>>)
    ensures r.Some? <==> toc.Some?
  {
    if toc.Some? then Some(Toc.Parse(toc.value)) else None
  }

  // ---------------------------------------------------------------------
  // Properties of normalisation

  /** A bookmark that carries something worth keeping. */
  predicate BookmarkKeeps(b: Bookmark) {
    b.id.Some? || b.image.Some? || b.others != map[]
  }

  /** Everything normalisation may keep or promote, as a reference
      definition: any own field other than the outline, any bookmark field
      that is promoted, or a bookmark worth keeping. */
  predicate HasContent(m: Meta) {
    || m.title.Some? || m.description.Some? || m.path.Some? || m.link.Some?
    || m.status.Some? || m.kind.Some? || m.journalDate.Some? || m.createdAt.Some?
    || m.updatedAt.Some? || m.author.Some? || m.tags.Some? || m.others != map[]
    || (m.bookmark.Some? &&
        var b := m.bookmark.value;
        b.title.Some? || b.journalDate.Some? || b.createdAt.Some? || b.updatedAt.Some?
        || b.url.Some? || BookmarkKeeps(b))
  }

  /** Front matter disappears exactly when it has nothing but an outline
      and bookmark fields that are dropped. */
  lemma MetaNormalizeNoneIff(m: Meta)
    ensures MetaNormalize(m).None? <==> !HasContent(m)
  {
  }

  /** Normalisation never overwrites a field the note has, and fills an
      absent one from the bookmark. */
  lemma MetaNormalizeKeepsOwnFields(m: Meta)
    requires MetaNormalize(m).Some?
    ensures var r := MetaNormalize(m).value;
      && (m.title.Some? ==> r.title == m.title)
      && (m.link.Some? ==> r.link == m.link)
      && (m.journalDate.Some? ==> r.journalDate == m.journalDate)
      && (m.createdAt.Some? ==> r.createdAt == m.createdAt)
      && (m.updatedAt.Some? ==> r.updatedAt == m.updatedAt)
      && (m.title.None? && m.bookmark.Some? ==> r.title == m.bookmark.value.title)
      && (m.link.None? && m.bookmark.Some? ==> r.link == m.bookmark.value.url)
      && (m.journalDate.None? && m.bookmark.Some? ==> r.journalDate == m.bookmark.value.journalDate)
      && (m.createdAt.None? && m.bookmark.Some? ==> r.createdAt == m.bookmark.value.createdAt)
      && (m.updatedAt.None? && m.bookmark.Some? ==> r.updatedAt == m.bookmark.value.updatedAt)
      && (m.bookmark.None? ==>
            r.title == m.title && r.link == m.link && r.journalDate == m.journalDate
            && r.createdAt == m.createdAt && r.updatedAt == m.updatedAt && r.bookmark.None?)
      && (r.bookmark.Some? <==> m.bookmark.Some? && BookmarkKeeps(m.bookmark.value))
      && (r.bookmark.Some? ==> r.bookmark == BookmarkNormalize(m.bookmark.value))
      && r.description == m.description && r.path == m.path && r.status == m.status
      && r.kind == m.kind && r.author == m.author && r.tags == m.tags && r.others == m.others
  {
  }

  /** Normalised front matter holds no outline anywhere, and its bookmark
      (if any) has only identity, image and unknown keys. */
  lemma MetaNormalizeDropsToc(m: Meta)
    requires MetaNormalize(m).Some?
    ensures var r := MetaNormalize(m).value;
      && r.toc.None?
      && (r.bookmark.Some? ==>
            && r.bookmark.value.toc.None? && r.bookmark.value.title.None?
            && r.bookmark.value.url.None? && r.bookmark.value.journalDate.None?
            && r.bookmark.value.createdAt.None? && r.bookmark.value.updatedAt.None?
            && BookmarkKeeps(r.bookmark.value))
  {
  }

  /** A bookmark disappears exactly when it has no identity, no image and
      no unknown keys; otherwise it keeps exactly those three and loses its
      title, outline, dates and address. */
  lemma BookmarkNormalizeShape(b: Bookmark)
    ensures BookmarkNormalize(b).None? <==> !BookmarkKeeps(b)
    ensures BookmarkNormalize(b).Some? ==>
      var r := BookmarkNormalize(b).value;
      && r.id == b.id && r.image == b.image && r.others == b.others
      && r.title.None? && r.toc.None? && r.url.None?
      && r.journalDate.None? && r.createdAt.None? && r.updatedAt.None?
  {
  }

  /** Normalising twice is normalising once. */
  lemma MetaNormalizeIdempotent(m: Meta)
    requires MetaNormalize(m).Some?
    ensures MetaNormalize(MetaNormalize(m).value) == MetaNormalize(m)
  {
    var r := MetaNormalize(m).value;
    if r.bookmark.Some? {
      assert BookmarkNormalize(r.bookmark.value) == r.bookmark;
    }
  }

  lemma MetadataNormalizeIdempotent(md: Metadata)
    requires MetadataNormalize(md).Some?
    ensures MetadataNormalize(MetadataNormalize(md).value) == MetadataNormalize(md)
  {
    if md.Meta? {
      MetaNormalizeIdempotent(md.meta);
    }
  }

  /** A bookmark holding only an outline disappears, and so does front
      matter whose only content is such a bookmark. */
  lemma TocOnlyBookmarkDisappears(v: string)
    ensures BookmarkNormalize(BookmarkWithToc(v)) == None
    ensures MetaNormalize(EmptyMeta.(bookmark := Some(BookmarkWithToc(v)))) == None
  {
  }

  /** Unit tests `normalize_empty`, `normalize_title` and `normalize_link`
      of metadata.rs. */
  lemma NormalizeExamples()
    ensures MetaNormalize(EmptyMeta) == None
    ensures MetaNormalize(EmptyMeta.(bookmark := Some(EmptyBookmark.(title := Some("foo")))))
      == Some(EmptyMeta.(title := Some("foo")))
    ensures MetaNormalize(EmptyMeta.(bookmark := Some(EmptyBookmark.(url := Some("foo")))))
      == Some(EmptyMeta.(link := Some("foo")))
  {
  }

  /** Unit test `normalize_others` of metadata.rs: a bookmark with unknown
      keys is kept with exactly those keys. */
  lemma NormalizeOthersExample(others: map<string, YamlValue>)
    requires others != map[]
    ensures MetaNormalize(EmptyMeta.(bookmark := Some(EmptyBookmark.(others := others))))
      == Some(EmptyMeta.(bookmark := Some(EmptyBookmark.(others := others))))
  {
  }
}

/** The card kinds known to the markdown-side note model and to the front
    matter's `kind` field (the `NoteKind` of crates/mdfmt-core/src/note/model.rs,
    which has no `todo`). */
module ModelKinds {

  datatype NoteKind = Note | Summary | Quote | Question | Toc

  const Default: NoteKind := Note

  /** The `Display` name of a kind. */
  function Name(k: NoteKind): (r: string)
    ensures r != []
  {
    match k
    case Note => "note"
    case Summary => "summary"
    case Quote => "quote"
    case Question => "question"
    case Toc => "toc"
  }

  /** `NoteKind::from_str`: every unrecognised name, `todo` included, is a
      plain note. */
  function FromName(s: string): NoteKind {
    if s == "note" then Note
    else if s == "summary" then Summary
    else if s == "quote" then Quote
    else if s == "question" then Question
    else if s == "toc" then Toc
    else Note
  }

  /** Printing a kind and parsing the name gives the kind back. */
  lemma FromNameOfName(k: NoteKind)
    ensures FromName(Name(k)) == k
  {
  }

  /** A name that no kind prints means a plain note. */
  lemma FromNameUnknown(s: string)
    requires forall k: NoteKind :: Name(k) != s
    ensures FromName(s) == Default
  {
    assert Name(Note) != s && Name(Summary) != s && Name(Quote) != s;
    assert Name(Question) != s && Name(Toc) != s;
  }
}

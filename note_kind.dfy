/** The kind of a callout card, as written in `[!kind]`
    (crates/mdfmt-core/src/note/note_kind.rs). */
module NoteKinds {

  datatype NoteKind = Note | Summary | Quote | Question | Toc | Todo

  /** `NoteKind::default`. */
  const Default: NoteKind := Note

  /** The `Display` name of a kind. */
  function Name(k: NoteKind): (r: string)
    ensures r != []
  {
    match k
    case Note => "note"
    case Summary => "summary"
    case Quote => "quote"
    case Question => "question"
    case Toc => "toc"
    case Todo => "todo"
  }

  /** `NoteKind::from_str`: every unrecognised name is a plain note. */
  function FromName(s: string): NoteKind {
    if s == "note" then Note
    else if s == "summary" then Summary
    else if s == "quote" then Quote
    else if s == "question" then Question
    else if s == "toc" then Toc
    else if s == "todo" then Todo
    else Note
  }

  /** Printing a kind and parsing the name gives the kind back. */
  lemma FromNameOfName(k: NoteKind)
    ensures FromName(Name(k)) == k
  {
  }

  /** Distinct kinds print distinct names. */
  lemma NameInjective(a: NoteKind, b: NoteKind)
    requires Name(a) == Name(b)
    ensures a == b
  {
    FromNameOfName(a);
    FromNameOfName(b);
  }

  /** Parsing never fails: a name that no kind prints means a plain note,
      which is also the default kind. */
  lemma FromNameTotal(s: string)
    ensures (forall k: NoteKind :: Name(k) != s) ==> FromName(s) == Default
    ensures (exists k: NoteKind :: Name(k) == s) ==> Name(FromName(s)) == s
  {
    if forall k: NoteKind :: Name(k) != s {
      assert Name(Note) != s && Name(Summary) != s && Name(Quote) != s;
      assert Name(Question) != s && Name(Toc) != s && Name(Todo) != s;
    }
  }
}

/** The data the opaque constructors `Book.from_dict`, `Chapter` and
    `Substitution.from_dict` produce. Their code is not part of this model;
    only the shape of what they hand to the loaders and outputs is. */
module Books {
  import opened Values

  /** One source file of the book and whether it is published. */
  datatype Chapter = Chapter(src: Json, publish: bool)

  /** A book: its attributes by name (what `hasattr`/`getattr` see) and its
      chapters in publication order. */
  datatype Book = Book(attrs: map<string, Json>, chapters: seq<Chapter>)

  /** A text replacement rule: a literal one, or a pattern with a
      replacement template. */
  datatype Substitution =
    | SimpleSubstitution(oldText: Json, newText: Json)
    | RegexSubstitution(pattern: Json, replaceWith: Json)
}

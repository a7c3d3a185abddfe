/** What a version's title, description and author are to be, told of the stored
    row: the rules of inheritance, clearing and re-deriving
    (src/document-write.ts). */
module MetadataRules {
  import opened Records
  import opened Writes

  /** The cleaned title found in a render, if there is one. */
  ghost predicate IsDerivedTitle(env: Env, html: string, title: Option<string>) {
    var found := env.deriveTitle(html);
    if found == "" || env.cleanTitle(found) == "" then title.None? else title == Some(env.cleanTitle(found))
  }

  /** A given text, cleaned, or nothing when cleaning leaves nothing. */
  ghost predicate IsGiven(clean: string -> string, given: string, text: Option<string>) {
    if clean(given) == "" then text.None? else text == Some(clean(given))
  }

  /** An omitted field is taken from the version before, or on a first version
      derived or absent; an empty title is derived, an empty description absent;
      anything else is what was given. */
  ghost predicate Described(env: Env, html: string, asked: Opts, before: Option<Version>, row: Version) {
    && (asked.title.None? && before.Some? ==> row.title == before.value.title)
    && (asked.title.None? && before.None? ==> IsDerivedTitle(env, html, row.title))
    && (asked.title == Some("") ==> IsDerivedTitle(env, html, row.title))
    && (asked.title.Some? && asked.title.value != "" ==> IsGiven(env.cleanTitle, asked.title.value, row.title))
    && (asked.description.None? ==> row.description == if before.Some? then before.value.description else None)
    && (asked.description == Some("") ==> row.description.None?)
    && (asked.description.Some? && asked.description.value != "" ==> IsGiven(env.cleanDescription, asked.description.value, row.description))
  }

  /** A restored version's own texts, cleaned again; one it lacks is derived from
      the render or absent. */
  ghost predicate DescribedAs(env: Env, html: string, was: Version, row: Version) {
    && (was.title.Some? && was.title.value != "" ==> IsGiven(env.cleanTitle, was.title.value, row.title))
    && (was.title.None? || was.title.value == "" ==> IsDerivedTitle(env, html, row.title))
    && (was.description.Some? && was.description.value != "" ==> IsGiven(env.cleanDescription, was.description.value, row.description))
    && (was.description.None? || was.description.value == "" ==> row.description.None?)
  }

  ghost predicate WrittenBy(author: Author, row: Version) {
    match author
    case Operator => row.authorKind.OperatorKind? && row.authorAgent.None? && row.authorClient.None?
    case Agent(id, client) => row.authorKind.AgentKind? && row.authorAgent == Some(id) && row.authorClient == client
  }

  /** The row holds this source in this format, by this author. */
  ghost predicate HoldsBody(row: Version, body: string, format: Format, author: Author) {
    row.sha == Some(Digest(body)) && row.format == format && WrittenBy(author, row)
  }

  lemma NewRowIsDescribed(env: Env, prep: Prep, docId: string, ver: nat, nonce: string, asked: Opts, before: Option<Version>,
                          author: Author, now: string)
    ensures
      var prior := if before.Some? then Some(Meta(before.value.title, before.value.description)) else None;
      var row := NewRow(env, prep, docId, ver, nonce, ResolveMetadata(env, prep.html, asked, prior), author, now);
      && Described(env, prep.html, asked, before, row) && HoldsBody(row, prep.source, prep.format, author)
      && row.createdAt == now && row.sanitizer == env.sanitizerVersion
      && row.size == Utf8Size(prep.html) && row.sourceSize == Some(Utf8Size(prep.source))
  {
    hide Utf8Size;
  }

  /** What the update that restores a version asks for comes to that version's own
      texts. */
  lemma AskedToRestore(env: Env, html: string, asked: Opts, before: Option<Version>, was: Version, row: Version)
    requires asked.title == Some(if was.title.Some? then was.title.value else "")
    requires asked.description == Some(if was.description.Some? then was.description.value else "")
    requires Described(env, html, asked, before, row)
    ensures DescribedAs(env, html, was, row)
  {
  }

  /** Texts that are clean come back as they were. */
  lemma CleanTextsComeBack(env: Env, html: string, was: Version, row: Version)
    requires DescribedAs(env, html, was, row)
    ensures was.title.Some? && was.title.value != "" && env.cleanTitle(was.title.value) == was.title.value ==> row.title == was.title
    ensures was.description.Some? && was.description.value != "" && env.cleanDescription(was.description.value) == was.description.value ==>
              row.description == was.description
    ensures was.description.None? ==> row.description.None?
  {
  }
}

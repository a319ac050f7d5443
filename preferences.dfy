/**
 * The theme preference as it is stored in the remote settings document
 * (`settings/user_preferences`, field `isDarkMode`).
 */
module Preferences {
  import opened Wrappers

  /**
   * The settings document: `isDarkMode`, which may be missing or null, and the
   * document's other fields, which this application neither reads nor writes.
   */
  datatype PrefDoc = PrefDoc(isDarkMode: Option<bool>, others: map<string, string>)

  /** What a point read of the settings document produced. */
  datatype PrefRead = ReadFailed | Read(doc: Option<PrefDoc>)

  /**
   * The theme after a successful load: the stored field when the document
   * exists and has one (`?? true`), otherwise dark.
   */
  function ThemeFromDoc(doc: Option<PrefDoc>): (dark: bool)
    ensures !dark <==> doc.Some? && doc.value.isDarkMode == Some(false)
  {
    if doc.Some? then doc.value.isDarkMode.GetOr(true) else true
  }

  /**
   * The document after `set({isDarkMode: v}, {merge: true})`: it exists, the
   * flag holds `v`, and the merge keeps every other field of an existing document.
   */
  function SavedDoc(doc: Option<PrefDoc>, v: bool): (d: Option<PrefDoc>)
    ensures d.Some? && d.value.isDarkMode == Some(v)
    ensures d.value.others == if doc.Some? then doc.value.others else map[]
  {
    match doc
    case None => Some(PrefDoc(Some(v), map[]))
    case Some(p) => Some(p.(isDarkMode := Some(v)))
  }

  /** Of two merge writes of the flag, the later one decides the document. */
  lemma SaveLastWins(doc: Option<PrefDoc>, v: bool, w: bool)
    ensures SavedDoc(SavedDoc(doc, v), w) == SavedDoc(doc, w)
  {
  }

  /** Loading after saving gives back the saved theme, whatever was stored before. */
  lemma SaveThenLoad(doc: Option<PrefDoc>, v: bool)
    ensures ThemeFromDoc(SavedDoc(doc, v)) == v
  {
  }

  /** A missing document, or one without the field, loads as dark. */
  lemma LoadDefaultsToDark(others: map<string, string>)
    ensures ThemeFromDoc(None) && ThemeFromDoc(Some(PrefDoc(None, others)))
  {
  }
}

/** The "new project" dialog, which hands back the typed title with a blank one replaced
    by the default name. */
module NewProjectDialog {
  import opened Text

  /** The name given to a project whose title is blank or missing. */
  const Untitled: string := "Без названия"

  /** `input.ifBlank { "Без названия" }`: a blank title becomes the default name; any
      other title is kept exactly, surrounding whitespace included.  The result is never
      blank. */
  function NormaliseTitle(input: string): (r: string)
    ensures IsBlank(input) ==> r == Untitled
    ensures !IsBlank(input) ==> r == input
    ensures !IsBlank(r)
  {
    if IsBlank(input) then
      assert Untitled[0] == 'Б' && !IsWhitespace(Untitled[0]);
      Untitled
    else input
  }

  /** Normalising a normalised title changes nothing. */
  lemma NormaliseIdempotent(input: string)
    ensures NormaliseTitle(NormaliseTitle(input)) == NormaliseTitle(input)
  {
  }
}

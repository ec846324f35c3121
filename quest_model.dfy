/** The quest data model: a project is an ordered list of screens; each screen has a
    title, an expected answer and two media slots.  A slot is stored, as in the persisted
    format, as a nullable media type paired with a nullable content string. */
module QuestModel {

  datatype Option<+T> = None | Some(value: T) {
    function GetOr(default: T): T {
      match this
      case Some(v) => v
      case None => default
    }
  }

  /** The two kinds of media a slot can hold. */
  datatype MediaType = TEXT | IMAGE

  /** The two media slots of a screen. */
  datatype Slot = PRIMARY | SECONDARY

  /** One screen of a quest.  All six fields are mutable in the source; here a change to a
      screen is a new value put back at its index. */
  datatype QuestScreen = QuestScreen(
    screenText: string,
    correctAnswer: string,
    primaryMediaType: Option<MediaType>,
    primaryMediaContent: Option<string>,
    secondaryMediaType: Option<MediaType>,
    secondaryMediaContent: Option<string>)

  /** A project is nothing but its ordered list of screens. */
  datatype Project = Project(screens: seq<QuestScreen>)

  /** A catalog entry: a title, the name of the file holding the project, and the creation
      time in epoch milliseconds. */
  datatype ProjectInfo = ProjectInfo(title: string, projectFile: string, date: int)

  /** What loading a project file can produce: no file was named in the fragment's
      arguments, the named file does not exist, or the file was decoded into screens. */
  datatype ProjectSource = NoProjectFile | FileMissing | Decoded(screens: seq<QuestScreen>)

  /** The slot that is not `slot`: there are exactly two slots. */
  function Other(slot: Slot): (r: Slot)
    ensures r != slot
    ensures slot == PRIMARY <==> r == SECONDARY
  {
    match slot
    case PRIMARY => SECONDARY
    case SECONDARY => PRIMARY
  }

  /** The media type stored in `slot`; None means the slot is absent. */
  function SlotType(s: QuestScreen, slot: Slot): Option<MediaType> {
    match slot
    case PRIMARY => s.primaryMediaType
    case SECONDARY => s.secondaryMediaType
  }

  /** The content string stored in `slot`. */
  function SlotContent(s: QuestScreen, slot: Slot): Option<string> {
    match slot
    case PRIMARY => s.primaryMediaContent
    case SECONDARY => s.secondaryMediaContent
  }

  /** `s` with the type and content of `slot` replaced; the other slot, the title and the
      answer are untouched. */
  function WithSlot(s: QuestScreen, slot: Slot, t: Option<MediaType>, c: Option<string>): (r: QuestScreen)
    ensures SlotType(r, slot) == t && SlotContent(r, slot) == c
    ensures SlotType(r, Other(slot)) == SlotType(s, Other(slot))
    ensures SlotContent(r, Other(slot)) == SlotContent(s, Other(slot))
    ensures r.screenText == s.screenText && r.correctAnswer == s.correctAnswer
  {
    match slot
    case PRIMARY => s.(primaryMediaType := t, primaryMediaContent := c)
    case SECONDARY => s.(secondaryMediaType := t, secondaryMediaContent := c)
  }

  /** A screen built with only its title given, as `QuestScreen(text)` does: every other
      field takes its default. */
  function ScreenWithText(text: string): (s: QuestScreen)
    ensures s.screenText == text && s.correctAnswer == ""
    ensures forall slot: Slot :: SlotType(s, slot).None? && SlotContent(s, slot).None?
  {
    QuestScreen(text, "", None, None, None, None)
  }

  /** The default screen `QuestScreen()`: empty title, empty answer, both slots absent. */
  function DefaultScreen(): (s: QuestScreen)
    ensures s.screenText == "" && s.correctAnswer == ""
    ensures forall slot: Slot :: SlotType(s, slot).None? && SlotContent(s, slot).None?
  {
    ScreenWithText("")
  }

  /** A screen is determined by its title, its answer and the type and content of its
      two slots: the slot view loses nothing of the flattened record. */
  lemma ScreenDeterminedBySlots(a: QuestScreen, b: QuestScreen)
    requires a.screenText == b.screenText && a.correctAnswer == b.correctAnswer
    requires forall slot: Slot :: SlotType(a, slot) == SlotType(b, slot) && SlotContent(a, slot) == SlotContent(b, slot)
    ensures a == b
  {
    assert SlotType(a, PRIMARY) == SlotType(b, PRIMARY) && SlotContent(a, PRIMARY) == SlotContent(b, PRIMARY);
    assert SlotType(a, SECONDARY) == SlotType(b, SECONDARY) && SlotContent(a, SECONDARY) == SlotContent(b, SECONDARY);
  }
}

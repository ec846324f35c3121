/** The editing session of the screen editor: the project's screen list and the index of
    the screen being edited, changed by the editor's buttons and slot dialogs.  The Android
    widgets are not modelled; what the user typed reaches the session as a `TypedEdits`
    value, and which slot widgets currently exist is part of that value. */
module Editor {
  import opened QuestModel
  import opened Lists

  /** The widgets shown for one slot when the screen is committed: the text field of a
      TEXT slot (with the text typed into it) and the image view of an IMAGE slot (with
      its tag, the image URI it shows, which may be null). */
  datatype SlotWidget = SlotWidget(editText: Option<string>, imageTag: Option<Option<string>>)

  /** What the editor's fields hold when the current screen is committed. */
  datatype TypedEdits = TypedEdits(title: string, answer: string, primary: SlotWidget, secondary: SlotWidget) {
    function Widget(slot: Slot): SlotWidget {
      match slot
      case PRIMARY => primary
      case SECONDARY => secondary
    }
  }

  /** The choices of the "where to insert a new screen?" dialog. */
  datatype AddChoice = InsertRightChoice | InsertLeftChoice | CancelChoice

  /** The file write requested when leaving the editor with "save and exit". */
  datatype FileWrite = FileWrite(file: string, project: Project)

  /** The screen list after opening the editor, starting from the list the view model
      already holds.  A decoded file replaces the list; a missing file, or no file at all,
      appends one default screen; an empty result gets one default screen.  The list is
      never empty afterwards. */
  function LoadedScreens(prior: seq<QuestScreen>, source: ProjectSource): (r: seq<QuestScreen>)
    ensures |r| >= 1
    ensures source.Decoded? && source.screens != [] ==> r == source.screens
    ensures source.Decoded? && source.screens == [] ==> r == [DefaultScreen()]
    ensures !source.Decoded? ==> r == prior + [DefaultScreen()]
  {
    var read := if source.Decoded? then source.screens else prior + [DefaultScreen()];
    if read == [] then [DefaultScreen()] else read
  }

  /** The text Kotlin's `toString()` gives for a nullable URI: its string, or "null". */
  function UriString(uri: Option<string>): (r: string)
    ensures uri.Some? ==> r == uri.value
    ensures uri.None? ==> r == "null"
  {
    match uri
    case Some(u) => u
    case None => "null"
  }

  /** Committing one slot: the content is rewritten from the text field when the slot is
      TEXT and a text field exists, or from the image view's tag when the slot is IMAGE and
      an image view exists; otherwise it is kept.  The slot's type never changes, and the
      other slot, the title and the answer are untouched. */
  function CommitSlot(s: QuestScreen, slot: Slot, w: SlotWidget): (r: QuestScreen)
    ensures SlotType(r, slot) == SlotType(s, slot)
    ensures SlotType(s, slot) == Some(TEXT) && w.editText.Some? ==> SlotContent(r, slot) == w.editText
    ensures SlotType(s, slot) == Some(IMAGE) && w.imageTag.Some? ==> SlotContent(r, slot) == w.imageTag.value
    ensures SlotContent(r, slot) != SlotContent(s, slot) ==>
              (SlotType(s, slot) == Some(TEXT) && w.editText.Some?)
              || (SlotType(s, slot) == Some(IMAGE) && w.imageTag.Some?)
    ensures SlotType(r, Other(slot)) == SlotType(s, Other(slot))
    ensures SlotContent(r, Other(slot)) == SlotContent(s, Other(slot))
    ensures r.screenText == s.screenText && r.correctAnswer == s.correctAnswer
  {
    var t := SlotType(s, slot);
    var afterText := if t == Some(TEXT) && w.editText.Some? then WithSlot(s, slot, t, w.editText) else s;
    if t == Some(IMAGE) && w.imageTag.Some? then WithSlot(afterText, slot, t, w.imageTag.value) else afterText
  }

  /** Committing the typed edits into a screen: the title and the answer are overwritten,
      each slot is committed from its own widgets, and no slot type changes. */
  function CommitScreen(s: QuestScreen, e: TypedEdits): (r: QuestScreen)
    ensures r.screenText == e.title && r.correctAnswer == e.answer
    ensures forall slot: Slot :: SlotType(r, slot) == SlotType(s, slot)
    ensures forall slot: Slot :: SlotContent(r, slot) == SlotContent(CommitSlot(s, slot, e.Widget(slot)), slot)
  {
    var titled := s.(screenText := e.title, correctAnswer := e.answer);
    CommitSlot(CommitSlot(titled, PRIMARY, e.primary), SECONDARY, e.secondary)
  }

  class EditorSession {
    var screens: seq<QuestScreen>
    var currentIndex: int

    /** The session invariant: at least one screen, and the cursor on one of them. */
    predicate Valid()
      reads this
    {
      1 <= |screens| && 0 <= currentIndex < |screens|
    }

    /** A fresh view model: no screens, cursor 0. */
    constructor ()
      ensures screens == [] && currentIndex == 0
    {
      screens := [];
      currentIndex := 0;
    }

    /** Opening the editor on `source`.  The cursor is not touched, so a fresh view model
        ends in a valid session. */
    method Load(source: ProjectSource)
      modifies this
      ensures screens == LoadedScreens(old(screens), source)
      ensures currentIndex == old(currentIndex)
      ensures old(currentIndex) == 0 ==> Valid()
    {
      if source.Decoded? {
        screens := source.screens;
      } else {
        screens := screens + [DefaultScreen()];
      }
      if screens == [] {
        screens := screens + [DefaultScreen()];
      }
    }

    /** Writing the typed edits into the current screen; no other screen changes. */
    method Commit(e: TypedEdits)
      requires Valid()
      modifies this
      ensures Valid() && currentIndex == old(currentIndex)
      ensures screens == old(screens)[currentIndex := CommitScreen(old(screens)[currentIndex], e)]
    {
      screens := screens[currentIndex := CommitScreen(screens[currentIndex], e)];
    }

    /** Going back one screen; at the first screen nothing changes and `moved` is false
        (the "already on the first screen" notice). */
    method Previous() returns (moved: bool)
      requires Valid()
      modifies this
      ensures Valid() && screens == old(screens)
      ensures moved == (old(currentIndex) > 0)
      ensures currentIndex == if moved then old(currentIndex) - 1 else old(currentIndex)
    {
      moved := currentIndex > 0;
      if moved {
        currentIndex := currentIndex - 1;
      }
    }

    /** Going forward one screen, first appending a default screen when the cursor is on
        the last one; earlier screens never change. */
    method Next()
      requires Valid()
      modifies this
      ensures Valid() && currentIndex == old(currentIndex) + 1
      ensures old(currentIndex) == |old(screens)| - 1 ==> screens == old(screens) + [DefaultScreen()]
      ensures old(currentIndex) < |old(screens)| - 1 ==> screens == old(screens)
    {
      if currentIndex >= |screens| - 1 {
        screens := screens + [DefaultScreen()];
      }
      currentIndex := currentIndex + 1;
    }

    /** Inserting a default screen to the right of the current one; the cursor follows it. */
    method InsertRight()
      requires Valid()
      modifies this
      ensures Valid() && currentIndex == old(currentIndex) + 1
      ensures screens == InsertAt(old(screens), old(currentIndex) + 1, DefaultScreen())
      ensures screens[currentIndex] == DefaultScreen()
    {
      screens := InsertAt(screens, currentIndex + 1, DefaultScreen());
      currentIndex := currentIndex + 1;
    }

    /** Inserting a default screen to the left of the current one; the cursor keeps its
        value, so it now shows the new screen. */
    method InsertLeft()
      requires Valid()
      modifies this
      ensures Valid() && currentIndex == old(currentIndex)
      ensures screens == InsertAt(old(screens), old(currentIndex), DefaultScreen())
      ensures screens[currentIndex] == DefaultScreen()
    {
      screens := InsertAt(screens, currentIndex, DefaultScreen());
    }

    /** Deleting the current screen.  With more than one screen it is removed and the
        cursor steps back whenever it is above 0; the only screen is instead reset to a
        default one. */
    method Delete()
      requires Valid()
      modifies this
      ensures Valid()
      ensures |old(screens)| > 1 ==>
                screens == RemoveAt(old(screens), old(currentIndex))
                && currentIndex == if old(currentIndex) > 0 then old(currentIndex) - 1 else 0
      ensures |old(screens)| == 1 ==> screens == [DefaultScreen()] && currentIndex == 0
    {
      if |screens| > 1 {
        screens := RemoveAt(screens, currentIndex);
        if currentIndex > 0 {
          currentIndex := currentIndex - 1;
        }
      } else {
        screens := [DefaultScreen()];
      }
    }

    /** "Add text": the slot becomes an empty TEXT slot. */
    method SetTextSlot(slot: Slot)
      requires Valid()
      modifies this
      ensures Valid() && currentIndex == old(currentIndex)
      ensures screens == old(screens)[currentIndex := WithSlot(old(screens)[currentIndex], slot, Some(TEXT), None)]
    {
      screens := screens[currentIndex := WithSlot(screens[currentIndex], slot, Some(TEXT), None)];
    }

    /** The picked image arrives: the remembered slot becomes an IMAGE slot holding the
        URI's text; with no remembered slot nothing changes. */
    method SetImageSlot(slot: Option<Slot>, uri: Option<string>)
      requires Valid()
      modifies this
      ensures Valid() && currentIndex == old(currentIndex)
      ensures slot.None? ==> screens == old(screens)
      ensures slot.Some? ==>
                screens == old(screens)[currentIndex :=
                  WithSlot(old(screens)[currentIndex], slot.value, Some(IMAGE), Some(UriString(uri)))]
    {
      if slot.None? {
        return;
      }
      screens := screens[currentIndex := WithSlot(screens[currentIndex], slot.value, Some(IMAGE), Some(UriString(uri)))];
    }

    /** "Delete": the slot becomes absent, type and content both null. */
    method ClearSlot(slot: Slot)
      requires Valid()
      modifies this
      ensures Valid() && currentIndex == old(currentIndex)
      ensures screens == old(screens)[currentIndex := WithSlot(old(screens)[currentIndex], slot, None, None)]
    {
      screens := screens[currentIndex := WithSlot(screens[currentIndex], slot, None, None)];
    }

    /** The "previous" button: commit, then go back. */
    method OnPrevious(e: TypedEdits) returns (moved: bool)
      requires Valid()
      modifies this
      ensures Valid()
      ensures screens == old(screens)[old(currentIndex) := CommitScreen(old(screens)[old(currentIndex)], e)]
      ensures moved == (old(currentIndex) > 0)
      ensures currentIndex == if moved then old(currentIndex) - 1 else old(currentIndex)
    {
      Commit(e);
      moved := Previous();
    }

    /** The "next" button: commit, then go forward. */
    method OnNext(e: TypedEdits)
      requires Valid()
      modifies this
      ensures Valid() && currentIndex == old(currentIndex) + 1
      ensures var committed := old(screens)[old(currentIndex) := CommitScreen(old(screens)[old(currentIndex)], e)];
              screens == if old(currentIndex) == |old(screens)| - 1 then committed + [DefaultScreen()] else committed
    {
      Commit(e);
      Next();
    }

    /** The "add" button: commit, then insert as the dialog's choice says. */
    method OnAdd(e: TypedEdits, choice: AddChoice)
      requires Valid()
      modifies this
      ensures Valid()
      ensures var committed := old(screens)[old(currentIndex) := CommitScreen(old(screens)[old(currentIndex)], e)];
              match choice
              case InsertRightChoice =>
                screens == InsertAt(committed, old(currentIndex) + 1, DefaultScreen()) && currentIndex == old(currentIndex) + 1
              case InsertLeftChoice =>
                screens == InsertAt(committed, old(currentIndex), DefaultScreen()) && currentIndex == old(currentIndex)
              case CancelChoice =>
                screens == committed && currentIndex == old(currentIndex)
    {
      Commit(e);
      match choice {
        case InsertRightChoice => InsertRight();
        case InsertLeftChoice => InsertLeft();
        case CancelChoice =>
      }
    }

    /** "Save and exit": commit, then ask for the project file to be overwritten with the
        screen list, when a file was named.  The written project is never empty. */
    method SaveAndExit(e: TypedEdits, projectFile: Option<string>) returns (write: Option<FileWrite>)
      requires Valid()
      modifies this
      ensures Valid() && currentIndex == old(currentIndex)
      ensures screens == old(screens)[currentIndex := CommitScreen(old(screens)[currentIndex], e)]
      ensures write.Some? <==> projectFile.Some?
      ensures write.Some? ==> write.value == FileWrite(projectFile.value, Project(screens))
      ensures write.Some? ==> |write.value.project.screens| >= 1
    {
      Commit(e);
      if projectFile.Some? {
        write := Some(FileWrite(projectFile.value, Project(screens)));
      } else {
        write := None;
      }
    }
  }

  /** Committing touches only the current screen, and on it only the title, the answer
      and slot contents whose type and widget agree. */
  lemma CommitTouchesOnlyCurrent(screens: seq<QuestScreen>, i: nat, e: TypedEdits, j: nat, slot: Slot)
    requires i < |screens| && j < |screens|
    ensures var after := screens[i := CommitScreen(screens[i], e)];
            |after| == |screens|
            && (j != i ==> after[j] == screens[j])
            && SlotType(after[i], slot) == SlotType(screens[i], slot)
            && (SlotContent(after[i], slot) != SlotContent(screens[i], slot) ==>
                  (SlotType(screens[i], slot) == Some(TEXT) && e.Widget(slot).editText.Some?)
                  || (SlotType(screens[i], slot) == Some(IMAGE) && e.Widget(slot).imageTag.Some?))
  {
    var s := screens[i];
    var titled := s.(screenText := e.title, correctAnswer := e.answer);
    assert SlotType(titled, slot) == SlotType(s, slot) && SlotContent(titled, slot) == SlotContent(s, slot);
    assert SlotContent(CommitScreen(s, e), slot) == SlotContent(CommitSlot(s, slot, e.Widget(slot)), slot);
  }

  /** The editing scenario: a fresh session, insert to the right, delete. */
  method EditingScenario()
  {
    var session := new EditorSession();
    session.Load(NoProjectFile);
    assert session.screens == [DefaultScreen()] && session.currentIndex == 0;
    session.InsertRight();
    assert |session.screens| == 2 && session.currentIndex == 1;
    session.Delete();
    assert |session.screens| == 1 && session.currentIndex == 0;
  }
}

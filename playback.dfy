/** The play-through session: the loaded screens and the index of the screen being
    played.  Each submitted answer either advances the cursor by one or changes nothing;
    the quest is complete once the cursor reaches the number of screens. */
module Playback {
  import opened QuestModel
  import opened Text

  /** What a submission leads to: the "wrong answer" notice, the next screen, or the
      end-of-quest dialog. */
  datatype SubmitOutcome = Incorrect | NextScreen | Completed

  /** The cursor after one answer given on screen `cursor`. */
  function Step(screens: seq<QuestScreen>, cursor: nat, input: string): (r: nat)
    requires cursor < |screens|
    ensures r == cursor || r == cursor + 1
  {
    if AnswerMatches(input, screens[cursor].correctAnswer) then cursor + 1 else cursor
  }

  /** The cursor after a sequence of answers, from `cursor`.  Completion is terminal: once
      the cursor reaches the end, further answers are not played.  The cursor never passes
      the end and each answer moves it at most one screen. */
  function Play(screens: seq<QuestScreen>, cursor: nat, inputs: seq<string>): (r: nat)
    requires cursor <= |screens|
    ensures cursor <= r <= |screens|
    ensures r <= cursor + |inputs|
    decreases |inputs|
  {
    if inputs == [] || cursor == |screens| then cursor
    else Play(screens, Step(screens, cursor, inputs[0]), inputs[1..])
  }

  /** Answers played one batch after another are the same as played together. */
  lemma {:induction false} PlayAppend(screens: seq<QuestScreen>, cursor: nat, a: seq<string>, b: seq<string>)
    requires cursor <= |screens|
    ensures Play(screens, cursor, a + b) == Play(screens, Play(screens, cursor, a), b)
    decreases |a|
  {
    if a == [] {
      assert a + b == b;
    } else if cursor == |screens| {
      assert Play(screens, cursor, b) == cursor;
    } else {
      var next := Step(screens, cursor, a[0]);
      assert (a + b)[0] == a[0] && (a + b)[1..] == a[1..] + b;
      assert Play(screens, cursor, a + b) == Play(screens, next, a[1..] + b);
      assert Play(screens, cursor, a) == Play(screens, next, a[1..]);
      PlayAppend(screens, next, a[1..], b);
    }
  }

  /** Wrong answers to the current screen leave the cursor where it is. */
  lemma {:induction false} WrongAnswersChangeNothing(screens: seq<QuestScreen>, cursor: nat, inputs: seq<string>)
    requires cursor < |screens|
    requires forall k :: 0 <= k < |inputs| ==> !AnswerMatches(inputs[k], screens[cursor].correctAnswer)
    ensures Play(screens, cursor, inputs) == cursor
  {
    if inputs != [] {
      WrongAnswersChangeNothing(screens, cursor, inputs[1..]);
    }
  }

  /** Wrong answers followed by the right one move the quest on by exactly one screen,
      whatever comes after: the general case of a run with mistakes in between. */
  lemma {:induction false} WrongThenRight(screens: seq<QuestScreen>, cursor: nat, wrong: seq<string>, right: string, rest: seq<string>)
    requires cursor < |screens|
    requires forall k :: 0 <= k < |wrong| ==> !AnswerMatches(wrong[k], screens[cursor].correctAnswer)
    requires AnswerMatches(right, screens[cursor].correctAnswer)
    ensures Play(screens, cursor, wrong + [right] + rest) == Play(screens, cursor + 1, rest)
  {
    var tail := [right] + rest;
    assert wrong + [right] + rest == wrong + tail;
    PlayAppend(screens, cursor, wrong, tail);
    WrongAnswersChangeNothing(screens, cursor, wrong);
    assert tail[0] == right && tail[1..] == rest;
  }

  /** Conversely, a run that leaves screen `cursor` did so at its first right answer to
      that screen `n`; every answer before it was wrong, and the rest is played from the
      next screen. */
  lemma {:induction false} FirstRightAnswer(screens: seq<QuestScreen>, cursor: nat, inputs: seq<string>) returns (n: nat)
    requires cursor < |screens|
    requires Play(screens, cursor, inputs) > cursor
    ensures n < |inputs|
    ensures forall k :: 0 <= k < n ==> !AnswerMatches(inputs[k], screens[cursor].correctAnswer)
    ensures AnswerMatches(inputs[n], screens[cursor].correctAnswer)
    ensures Play(screens, cursor, inputs) == Play(screens, cursor + 1, inputs[n + 1..])
    decreases |inputs|
  {
    if AnswerMatches(inputs[0], screens[cursor].correctAnswer) {
      n := 0;
    } else {
      var m := FirstRightAnswer(screens, cursor, inputs[1..]);
      n := m + 1;
      assert inputs[1..][m + 1..] == inputs[n + 1..];
      forall k | 0 <= k < n
        ensures !AnswerMatches(inputs[k], screens[cursor].correctAnswer)
      {
        if k > 0 {
          assert inputs[k] == inputs[1..][k - 1];
        }
      }
    }
  }

  /** `ok` holds of each element of `xs` paired with its position, positions counted
      from `start`. */
  predicate AllFrom<T>(ok: (nat, T) -> bool, start: nat, xs: seq<T>)
    decreases |xs|
  {
    xs == [] || (ok(start, xs[0]) && AllFrom(ok, start + 1, xs[1..]))
  }

  /** AllFrom says, element by element, that `ok(start + k, xs[k])`. */
  lemma {:induction false} AllFromIndexwise<T>(ok: (nat, T) -> bool, start: nat, xs: seq<T>)
    ensures AllFrom(ok, start, xs) <==> forall k :: 0 <= k < |xs| ==> ok(start + k, xs[k])
    decreases |xs|
  {
    if xs != [] {
      var rest, next := xs[1..], start + 1;
      AllFromIndexwise(ok, next, rest);
      if AllFrom(ok, start, xs) {
        forall k | 0 <= k < |xs| ensures ok(start + k, xs[k]) {
          if k > 0 {
            var j := k - 1;
            assert xs[k] == rest[j] && start + k == next + j;
          }
        }
      }
      if forall k :: 0 <= k < |xs| ==> ok(start + k, xs[k]) {
        forall j | 0 <= j < |rest| ensures ok(next + j, rest[j]) {
          var k := j + 1;
          assert rest[j] == xs[k] && next + j == start + k;
        }
      }
    }
  }

  /** Whether `input` is the right answer for screen `j`. */
  function RightAnswer(screens: seq<QuestScreen>): (nat, string) -> bool {
    (j: nat, input: string) => j < |screens| && AnswerMatches(input, screens[j].correctAnswer)
  }

  /** Answers played from `cursor` that exactly finish the quest: there are as many as
      screens left, and the quest ends after the last one. */
  lemma {:induction false} CompletesIffAllRight(screens: seq<QuestScreen>, cursor: nat, inputs: seq<string>)
    requires cursor <= |screens| && |inputs| == |screens| - cursor
    ensures Play(screens, cursor, inputs) == |screens| <==> AllFrom(RightAnswer(screens), cursor, inputs)
    decreases |inputs|
  {
    if inputs != [] {
      var rest := inputs[1..];
      CompletesIffAllRight(screens, cursor + 1, rest);
      if !AnswerMatches(inputs[0], screens[cursor].correctAnswer) {
        assert Play(screens, cursor, inputs) == Play(screens, cursor, rest);
        assert Play(screens, cursor, rest) <= cursor + |rest|;
      } else {
        assert Play(screens, cursor, inputs) == Play(screens, cursor + 1, rest);
      }
    }
  }

  /** From `cursor`, exactly as many answers as there are screens left complete the quest
      if and only if each of them is the right answer to its screen, in screen order. */
  lemma CompletesIffAllCorrectInOrder(screens: seq<QuestScreen>, cursor: nat, inputs: seq<string>)
    requires cursor <= |screens| && |inputs| == |screens| - cursor
    ensures Play(screens, cursor, inputs) == |screens|
            <==> forall k :: 0 <= k < |inputs| ==> AnswerMatches(inputs[k], screens[cursor + k].correctAnswer)
  {
    var ok := RightAnswer(screens);
    CompletesIffAllRight(screens, cursor, inputs);
    AllFromIndexwise(ok, cursor, inputs);
    assert (forall k :: 0 <= k < |inputs| ==> ok(cursor + k, inputs[k]))
           == (forall k :: 0 <= k < |inputs| ==> AnswerMatches(inputs[k], screens[cursor + k].correctAnswer)) by {
      forall k | 0 <= k < |inputs|
        ensures ok(cursor + k, inputs[k]) == AnswerMatches(inputs[k], screens[cursor + k].correctAnswer)
      {
      }
    }
  }

  /** Fewer answers than screens can never complete the quest from its start. */
  lemma NeedsOneAnswerPerScreen(screens: seq<QuestScreen>, inputs: seq<string>)
    requires |inputs| < |screens|
    ensures Play(screens, 0, inputs) < |screens|
  {
  }

  class PlaybackSession {
    var screens: seq<QuestScreen>
    var currentIndex: int

    /** A fresh view model: no screens, cursor 0. */
    constructor ()
      ensures screens == [] && currentIndex == 0
    {
      screens := [];
      currentIndex := 0;
    }

    /** Starting the quest: decoded screens replace the list, otherwise the list is kept
        and `loadFailed` reports "could not load the quest"; the cursor is reset to 0. */
    method Load(source: ProjectSource) returns (loadFailed: bool)
      modifies this
      ensures source.Decoded? ==> screens == source.screens
      ensures !source.Decoded? ==> screens == old(screens)
      ensures loadFailed <==> !source.Decoded?
      ensures currentIndex == 0
    {
      loadFailed := !source.Decoded?;
      if source.Decoded? {
        screens := source.screens;
      }
      currentIndex := 0;
    }

    /** Submitting an answer for the current screen.  A match moves the cursor on by one
        and either shows the next screen or completes the quest; a mismatch changes
        nothing.  The screen list is never changed. */
    method Submit(input: string) returns (outcome: SubmitOutcome)
      requires 0 <= currentIndex < |screens|
      modifies this
      ensures screens == old(screens)
      ensures currentIndex == Step(screens, old(currentIndex), input)
      ensures outcome == Incorrect <==> !AnswerMatches(input, screens[old(currentIndex)].correctAnswer)
      ensures outcome == Incorrect ==> currentIndex == old(currentIndex)
      ensures outcome != Incorrect ==> currentIndex == old(currentIndex) + 1
      ensures outcome == Completed <==> currentIndex == |screens|
      ensures outcome == NextScreen ==> currentIndex < |screens|
    {
      if AnswerMatches(input, screens[currentIndex].correctAnswer) {
        currentIndex := currentIndex + 1;
        if currentIndex >= |screens| {
          outcome := Completed;
        } else {
          outcome := NextScreen;
        }
      } else {
        outcome := Incorrect;
      }
    }
  }

  /** "CAT " is accepted for the expected answer "cat". */
  lemma PaddedCapitalsMatch()
    ensures AnswerMatches("CAT ", "cat")
  {
    assert TrimStart("cat") == "cat" && TrimEnd("cat") == "cat";
    assert TrimStart("CAT ") == "CAT ";
    assert "CAT "[..3] == "CAT";
    assert TrimEnd("CAT ") == TrimEnd("CAT") == "CAT";
    assert Fold('C') == 'c' && Fold('A') == 'a' && Fold('T') == 't';
    assert "CAT"[1..] == "AT" && "cat"[1..] == "at" && "AT"[1..] == "T" && "at"[1..] == "t";
  }

  /** "dog" is accepted for "dog" and refused for "cat". */
  lemma DogAnswers()
    ensures AnswerMatches("dog", "dog")
    ensures !AnswerMatches("dog", "cat")
  {
    assert TrimStart("cat") == "cat" && TrimEnd("cat") == "cat";
    assert TrimStart("dog") == "dog" && TrimEnd("dog") == "dog";
    assert Fold('d') != Fold('c');
    MatchesOwnAnswer("dog");
  }

  /** A wrong answer between two right ones: "dog", "CAT ", "dog" completes the quest
      whose screens expect "cat" and then "dog". */
  lemma WrongAnswerInBetween(a: QuestScreen, b: QuestScreen)
    requires a.correctAnswer == "cat" && b.correctAnswer == "dog"
    ensures Play([a, b], 0, ["dog", "CAT ", "dog"]) == 2
  {
    PaddedCapitalsMatch();
    DogAnswers();
    assert ["dog", "CAT ", "dog"] == ["dog"] + ["CAT "] + ["dog"];
    WrongThenRight([a, b], 0, ["dog"], "CAT ", ["dog"]);
    assert ["dog"] == [] + ["dog"] + [];
    WrongThenRight([a, b], 1, [], "dog", []);
  }

  /** The play-through scenarios: "CAT " answers "cat", "dog" completes, and a wrong
      answer changes nothing. */
  method PlaybackScenario()
  {
    var a := ScreenWithText("A").(correctAnswer := "cat");
    var b := ScreenWithText("B").(correctAnswer := "dog");
    PaddedCapitalsMatch();
    DogAnswers();

    var session := new PlaybackSession();
    var failed := session.Load(Decoded([a, b]));
    var outcome := session.Submit("CAT ");
    assert outcome == NextScreen && session.currentIndex == 1;
    outcome := session.Submit("dog");
    assert outcome == Completed && session.currentIndex == 2;

    failed := session.Load(Decoded([a]));
    outcome := session.Submit("dog");
    assert outcome == Incorrect && session.currentIndex == 0 && session.screens == [a];
  }
}

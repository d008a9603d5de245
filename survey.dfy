/**
 * The onboarding wizard (app/survey.tsx): two steps, a nickname and then an optional
 * mood colour, with Next and Back buttons; Next on the last step saves the answers and
 * marks the first launch as done.
 *
 * A store write that throws is chosen by the caller: `failing` names the write that would
 * throw if it were attempted.
 */
module Survey {
  import opened Optional
  import Text
  import Storage

  const TotalSteps: nat := 2
  /** The nickname field accepts at most this many characters. */
  const NicknameMaxLength: nat := 20
  const UserNicknameKey: string := "@userName"
  const InitialMoodColorIndexKey: string := "@initialMoodColorIndex"

  /** The store writes completion makes, in order. */
  datatype Write = NicknameWrite | MoodColorWrite | FirstLaunchWrite

  /** What completion leaves behind: the plain-text keys of the store, and whether the
      saving block ran to its end (and so navigated to the main screen). */
  datatype Completion = Completion(texts: map<string, string>, navigated: bool)

  /** What pressing Next did. */
  datatype NextOutcome = NicknameRequired | Advanced | Completed(navigated: bool)

  /** Key `k` is the same in both maps: present in both with one value, or in neither. */
  predicate SameAt(a: map<string, string>, b: map<string, string>, k: string) {
    (k in a <==> k in b) && (k in a ==> a[k] == b[k])
  }

  /** The effect of `handleSurveyCompletion` on the stored texts. The trimmed nickname is
      written when it is not blank, the 1-based colour number when a colour is chosen, and
      then the first-launch flag. A throwing nickname or colour write abandons the rest; a
      throwing flag write is swallowed inside `setFirstLaunchCompleted`. */
  function Complete(texts: map<string, string>, nickname: string, selected: Option<nat>, failing: Option<Write>)
    : (r: Completion)
    ensures r.navigated <==>
      !(Text.HasContent(nickname) && failing == Some(NicknameWrite)) && !(selected.Some? && failing == Some(MoodColorWrite))
    ensures Text.HasContent(nickname) && failing != Some(NicknameWrite) ==>
      UserNicknameKey in r.texts && r.texts[UserNicknameKey] == Text.Trim(nickname)
    ensures !Text.HasContent(nickname) || failing == Some(NicknameWrite) ==> SameAt(r.texts, texts, UserNicknameKey)
    ensures r.navigated && selected.Some? ==>
      InitialMoodColorIndexKey in r.texts && r.texts[InitialMoodColorIndexKey] == Text.IntToString(selected.value + 1)
    ensures !(r.navigated && selected.Some?) ==> SameAt(r.texts, texts, InitialMoodColorIndexKey)
    ensures r.navigated && failing != Some(FirstLaunchWrite) ==>
      Storage.FirstLaunchKey in r.texts && r.texts[Storage.FirstLaunchKey] == "true"
    ensures !(r.navigated && failing != Some(FirstLaunchWrite)) ==> SameAt(r.texts, texts, Storage.FirstLaunchKey)
    ensures forall k | k != UserNicknameKey && k != InitialMoodColorIndexKey && k != Storage.FirstLaunchKey ::
      SameAt(r.texts, texts, k)
  {
    var trimmed := Text.Trim(nickname);
    Text.TrimIsEmptyIffBlank(nickname);
    if |trimmed| > 0 && failing == Some(NicknameWrite) then Completion(texts, false)
    else
      var afterNickname := if |trimmed| > 0 then texts[UserNicknameKey := trimmed] else texts;
      if selected.Some? && failing == Some(MoodColorWrite) then Completion(afterNickname, false)
      else
        var afterColor :=
          if selected.Some? then afterNickname[InitialMoodColorIndexKey := Text.IntToString(selected.value + 1)]
          else afterNickname;
        var afterFlag := if failing == Some(FirstLaunchWrite) then afterColor else afterColor[Storage.FirstLaunchKey := "true"];
        Completion(afterFlag, true)
  }

  /** A completion with no failing write reads back as answered: the nickname is stored
      with no surrounding whitespace, the colour number parses back to the chosen index
      plus one, and the app no longer counts as on its first launch. */
  lemma CompletionReadsBack(texts: map<string, string>, nickname: string, index: nat)
    requires Text.HasContent(nickname)
    ensures Complete(texts, nickname, Some(index), None).navigated
    ensures UserNicknameKey in Complete(texts, nickname, Some(index), None).texts
    ensures Text.Trimmed(Complete(texts, nickname, Some(index), None).texts[UserNicknameKey])
    ensures InitialMoodColorIndexKey in Complete(texts, nickname, Some(index), None).texts
    ensures Text.ParseInt(Complete(texts, nickname, Some(index), None).texts[InitialMoodColorIndexKey]) == Some(index + 1)
    ensures Storage.FirstLaunchKey in Complete(texts, nickname, Some(index), None).texts
  {
    var stored := Text.Trim(nickname);
    Text.TrimIsEmptyIffBlank(nickname);
    assert Text.Trimmed(stored);
    var number := Text.IntToString(index + 1);
    Text.ParseIntRoundTrip(index + 1);
    var r := Complete(texts, nickname, Some(index), None);
    assert r.texts[UserNicknameKey] == stored;
    assert r.texts[InitialMoodColorIndexKey] == number;
  }

  /** The wizard's state. */
  class SurveyWizard {
    var currentStep: nat
    var nickname: string
    var selectedMoodColorIndex: Option<nat>
    var loading: bool
    var availableMoodColors: seq<string>

    /** The step stays within 1 to `TotalSteps`, a chosen colour is one on offer, and
        step 2 is only reached with a nickname. */
    ghost predicate Valid()
      reads this
    {
      && 1 <= currentStep <= TotalSteps
      && !loading
      && (selectedMoodColorIndex.Some? ==> selectedMoodColorIndex.value < |availableMoodColors|)
      && (currentStep == 2 ==> Text.HasContent(nickname))
      && |nickname| <= NicknameMaxLength
    }

    /** The wizard opens at step 1 with nothing entered, offering the saved (or default)
        mood palette. */
    constructor (store: Storage.Store)
      ensures Valid()
      ensures currentStep == 1 && nickname == "" && selectedMoodColorIndex == None
      ensures availableMoodColors == store.GetMoodColors()
    {
      currentStep := 1;
      nickname := "";
      selectedMoodColorIndex := None;
      loading := false;
      availableMoodColors := store.GetMoodColors();
    }

    /** Typing into the nickname field of step 1. */
    method SetNickname(text: string)
      requires Valid() && currentStep == 1 && |text| <= NicknameMaxLength
      modifies this
      ensures Valid()
      ensures nickname == text
      ensures currentStep == old(currentStep) && selectedMoodColorIndex == old(selectedMoodColorIndex)
      ensures availableMoodColors == old(availableMoodColors) && loading == old(loading)
    {
      nickname := text;
    }

    /** Tapping one of the colours offered on step 2. */
    method SelectMoodColor(index: nat)
      requires Valid() && currentStep == 2 && index < |availableMoodColors|
      modifies this
      ensures Valid()
      ensures selectedMoodColorIndex == Some(index)
      ensures currentStep == old(currentStep) && nickname == old(nickname)
      ensures availableMoodColors == old(availableMoodColors) && loading == old(loading)
    {
      selectedMoodColorIndex := Some(index);
    }

    /** `handleBack`: one step back, nothing on step 1. */
    method HandleBack()
      requires Valid()
      modifies this
      ensures Valid()
      ensures currentStep == if old(currentStep) > 1 then old(currentStep) - 1 else old(currentStep)
      ensures nickname == old(nickname) && selectedMoodColorIndex == old(selectedMoodColorIndex)
      ensures availableMoodColors == old(availableMoodColors) && loading == old(loading)
    {
      if currentStep > 1 {
        currentStep := currentStep - 1;
      }
    }

    /** `handleNext`: a blank nickname on step 1 stops here; before the last step it moves
        on by one; on the last step it runs completion. */
    method HandleNext(store: Storage.Store, failing: Option<Write>) returns (outcome: NextOutcome)
      requires Valid()
      modifies this, store
      ensures Valid()
      ensures old(currentStep) == 1 && !Text.HasContent(old(nickname)) ==>
        outcome == NicknameRequired && currentStep == 1 && store.texts == old(store.texts)
      ensures old(currentStep) < TotalSteps && (old(currentStep) != 1 || Text.HasContent(old(nickname))) ==>
        outcome == Advanced && currentStep == old(currentStep) + 1 && store.texts == old(store.texts)
      ensures old(currentStep) == TotalSteps ==>
        var c := Complete(old(store.texts), old(nickname), old(selectedMoodColorIndex), failing);
        outcome == Completed(c.navigated) && currentStep == TotalSteps && store.texts == c.texts
      ensures nickname == old(nickname) && selectedMoodColorIndex == old(selectedMoodColorIndex)
      ensures availableMoodColors == old(availableMoodColors)
      ensures store.tasksSlot == old(store.tasksSlot) && store.moodsSlot == old(store.moodsSlot)
      ensures store.journalSlot == old(store.journalSlot) && store.moodColorsSlot == old(store.moodColorsSlot)
    {
      Text.TrimIsEmptyIffBlank(nickname);
      if currentStep == 1 && |Text.Trim(nickname)| == 0 {
        return NicknameRequired;
      }
      if currentStep < TotalSteps {
        currentStep := currentStep + 1;
        outcome := Advanced;
      } else {
        var navigated := HandleSurveyCompletion(store, failing);
        outcome := Completed(navigated);
      }
    }

    /** `handleSurveyCompletion`: the writes `Complete` describes, with `loading` set for
        their duration and cleared afterwards, whether they threw or not. */
    method HandleSurveyCompletion(store: Storage.Store, failing: Option<Write>) returns (navigated: bool)
      requires Valid()
      modifies this, store
      ensures Valid()
      ensures var c := Complete(old(store.texts), old(nickname), old(selectedMoodColorIndex), failing);
        store.texts == c.texts && navigated == c.navigated
      ensures currentStep == old(currentStep) && nickname == old(nickname)
      ensures selectedMoodColorIndex == old(selectedMoodColorIndex) && availableMoodColors == old(availableMoodColors)
      ensures store.tasksSlot == old(store.tasksSlot) && store.moodsSlot == old(store.moodsSlot)
      ensures store.journalSlot == old(store.journalSlot) && store.moodColorsSlot == old(store.moodColorsSlot)
    {
      loading := true;
      navigated := false;
      var thrown := false;
      var trimmed := Text.Trim(nickname);
      if |trimmed| > 0 {
        if failing == Some(NicknameWrite) {
          thrown := true;
        } else {
          store.SetItem(UserNicknameKey, trimmed);
        }
      }
      if !thrown && selectedMoodColorIndex.Some? {
        if failing == Some(MoodColorWrite) {
          thrown := true;
        } else {
          store.SetItem(InitialMoodColorIndexKey, Text.IntToString(selectedMoodColorIndex.value + 1));
        }
      }
      if !thrown {
        // `setFirstLaunchCompleted` catches its own failure.
        if failing != Some(FirstLaunchWrite) {
          store.SetFirstLaunchCompleted();
        }
        navigated := true;
      }
      loading := false;
    }
  }
}

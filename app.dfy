/**
 * The application shell (src/App.tsx): validation of generated content and
 * construction of a new plan, saving and clearing the current plan, the
 * file name of the text export, the Yoda-speak transformation and the
 * key buffer that toggles it.  The content generator, the clock and the
 * random choice of a default prompt are parameters of the handlers.
 */
module App {
  import opened Types
  import opened Text
  import opened Collections
  import opened Gregorian
  import Storage
  import Calendar

  // ---------------------------------------------------------------------------
  // Generated content

  /** A field of the generator's reply: a value of the expected type, or anything else. */
  datatype Field<T> = Typed(value: T) | Untyped

  /** The generator's reply; the reply itself may be missing (`null`). */
  datatype RawContent = RawContent(
    schedule: Field<seq<ScheduleItem>>,
    goals: Field<seq<string>>,
    journalPrompt: Field<string>)

  /** The check in `handlePromptSubmit`: arrays for schedule and goals, a string prompt. */
  predicate ValidContent(content: Option<RawContent>) {
    content.Some? && content.value.schedule.Typed? && content.value.goals.Typed?
    && content.value.journalPrompt.Typed?
  }

  /** The prompts `getDefaultPrompt` chooses from. */
  const DEFAULT_PROMPTS: seq<string> := [
    "Crush today with maximum output and zero mercy.",
    "Dominate every obstacle and emerge victorious.",
    "Transform weakness into power and fear into strength.",
    "Execute with precision and eliminate all inefficiencies."]

  /** `prompt || getDefaultPrompt()`; `roll` is `Math.floor(Math.random() * 4)`. */
  function FinalPrompt(prompt: string, roll: nat): (r: string)
    requires roll < |DEFAULT_PROMPTS|
    ensures prompt != [] ==> r == prompt
    ensures prompt == [] ==> r in DEFAULT_PROMPTS && r != []
  {
    if prompt != [] then prompt else DEFAULT_PROMPTS[roll]
  }

  /** The `newPlan` record built from accepted content. */
  function NewPlan(content: RawContent, finalPrompt: string, now: nat, today: Date, createdAt: string): DailyPlan
    requires content.schedule.Typed? && content.goals.Typed? && content.journalPrompt.Typed?
    requires 0 <= today.month < 12 && today.day >= 1
  {
    DailyPlan(NatToString(now), LocaleDateString(today), finalPrompt, content.schedule.value,
      content.goals.value, content.journalPrompt.value, "", createdAt)
  }

  /**
   * A new plan carries the generated schedule, goals and journal prompt, the
   * prompt it was made for, an empty journal entry, and today's date, so
   * after it is saved a calendar that loads the stored plans shows some
   * plan on today's cell (which one is `NewPlanShownToday`).  The calendar
   * the app keeps mounted loaded its plans when it mounted, so it shows the
   * new plan only once the app mounts again.
   */
  lemma NewPlanSpec(content: RawContent, finalPrompt: string, now: nat, today: Date, createdAt: string,
                    plans: seq<DailyPlan>)
    requires content.schedule.Typed? && content.goals.Typed? && content.journalPrompt.Typed?
    requires 0 <= today.month < 12 && today.day >= 1
    ensures var p := NewPlan(content, finalPrompt, now, today, createdAt);
      p.schedule == content.schedule.value && p.goals == content.goals.value
      && p.journalPrompt == content.journalPrompt.value && p.prompt == finalPrompt
      && p.journalEntry == [] && ParseNat(p.id) == now
      && Calendar.PlanForDate(Upsert(plans, PlanId, p), today).Some?
  {
    var p := NewPlan(content, finalPrompt, now, today, createdAt);
    ParseNatToString(now);
    UpsertContains(plans, PlanId, p);
  }

  /**
   * After the save, a calendar that loads the stored plans shows the new
   * plan on today's cell, provided no other saved plan is dated today:
   * `getPlanForDate` returns the first plan of the day.
   */
  lemma NewPlanShownToday(content: RawContent, finalPrompt: string, now: nat, today: Date, createdAt: string,
                          plans: seq<DailyPlan>)
    requires content.schedule.Typed? && content.goals.Typed? && content.journalPrompt.Typed?
    requires 0 <= today.month < 12 && today.day >= 1
    requires forall q :: q in plans && q.id != NatToString(now) ==> q.date != LocaleDateString(today)
    ensures var p := NewPlan(content, finalPrompt, now, today, createdAt);
      Calendar.PlanForDate(Upsert(plans, PlanId, p), today) == Some(p)
  {
    var p := NewPlan(content, finalPrompt, now, today, createdAt);
    UpsertFoundFirst(plans, PlanId, p, Calendar.PlanDate, LocaleDateString(today));
  }

  // ---------------------------------------------------------------------------
  // Export file name

  /** The download name of the text export: every '/' of the plan's date becomes '-'. */
  function ExportFileName(date: string): string {
    "force-forecast-" + ReplaceAll(date, '/', '-') + ".txt"
  }

  /** The export name holds no '/', and the date part keeps every other character. */
  lemma ExportFileNameSpec(date: string)
    ensures '/' !in ExportFileName(date)
    ensures |ExportFileName(date)| == |date| + 19
    ensures forall i :: 0 <= i < |date| && date[i] != '/' ==> ExportFileName(date)[15 + i] == date[i]
  {
    var r := ReplaceAll(date, '/', '-');
    var name := ExportFileName(date);
    assert name[15..15 + |date|] == r;
    forall i | 0 <= i < |name| ensures name[i] != '/' {
      if 15 <= i < 15 + |date| {
        assert name[i] == r[i - 15];
      }
    }
  }

  // ---------------------------------------------------------------------------
  // Yoda-speak

  /** `toYodaSpeak`: with the mode on, the space-separated words in reverse order. */
  function ToYodaSpeak(yodaMode: bool, text: string): string {
    if !yodaMode then text else Join(Reverse(Split(text, ' ')), ' ')
  }

  /** Yoda-speak reverses the words: word `i` of the result is word `n - 1 - i` of the text. */
  lemma YodaSpeakReversesWords(text: string)
    ensures Split(ToYodaSpeak(true, text), ' ') == Reverse(Split(text, ' '))
  {
    SplitJoinReversed(text, ' ');
  }

  /** Yoda-speak applied twice gives the text back; with the mode off it changes nothing. */
  lemma YodaSpeakInvolution(text: string)
    ensures ToYodaSpeak(true, ToYodaSpeak(true, text)) == text
    ensures ToYodaSpeak(false, text) == text
  {
    YodaSpeakReversesWords(text);
    ReverseReverse(Split(text, ' '));
    JoinSplit(text, ' ');
  }

  // ---------------------------------------------------------------------------
  // The Yoda key buffer

  /** The browser key names of the code that toggles Yoda mode. */
  const YODA_CODE: seq<string> := ["ArrowUp", "ArrowUp", "ArrowDown", "ArrowDown",
                                   "ArrowLeft", "ArrowRight", "ArrowLeft", "ArrowRight", "b", "a"]

  const BUFFER_CAPACITY: nat := 10

  /** The handler compares the comma-joined buffer with the comma-joined code. */
  predicate YodaMatched(buffer: seq<string>) {
    Join(buffer, ',') == Join(YODA_CODE, ',')
  }

  /**
   * One keydown on the buffer: push, shift when over capacity, and on a
   * match empty the buffer.  The flag says whether the code matched.
   */
  function PressKey(buffer: seq<string>, key: string): (r: (seq<string>, bool))
    requires |buffer| <= BUFFER_CAPACITY
    ensures |r.0| <= BUFFER_CAPACITY
    ensures r.1 <==> YodaMatched(LastN(buffer + [key], BUFFER_CAPACITY))
    ensures r.1 ==> r.0 == []
    ensures !r.1 ==> r.0 == LastN(buffer + [key], BUFFER_CAPACITY)
  {
    var pushed := buffer + [key];
    var shifted := if |pushed| > BUFFER_CAPACITY then pushed[1..] else pushed;
    if YodaMatched(shifted) then ([], true) else (shifted, false)
  }

  /** The push-then-shift of the handler is the buffer `PressKey` tests. */
  lemma PushThenShift(buffer: seq<string>, key: string, shifted: seq<string>)
    requires |buffer| <= BUFFER_CAPACITY
    requires shifted == if |buffer + [key]| > BUFFER_CAPACITY then (buffer + [key])[1..] else buffer + [key]
    ensures PressKey(buffer, key) == if YodaMatched(shifted) then ([], true) else (shifted, false)
  {
  }

  /** Key names hold no comma except the comma key itself, so a match is an exact one. */
  lemma YodaMatchIsExact(buffer: seq<string>)
    requires |buffer| >= 1
    requires forall i :: 0 <= i < |buffer| ==> ',' !in buffer[i]
    ensures YodaMatched(buffer) <==> buffer == YODA_CODE
  {
    forall i | 0 <= i < |YODA_CODE| ensures ',' !in YODA_CODE[i] {
      assert YODA_CODE[i] in YODA_CODE;
    }
    JoinInjective(buffer, YODA_CODE, ',');
  }

  /** The buffer and the mode after a run of keydowns, first to last. */
  function PressKeys(buffer: seq<string>, yodaMode: bool, keys: seq<string>): (r: (seq<string>, bool))
    requires |buffer| <= BUFFER_CAPACITY
    ensures |r.0| <= BUFFER_CAPACITY
    decreases |keys|
  {
    if keys == [] then (buffer, yodaMode)
    else
      var before := PressKeys(buffer, yodaMode, keys[..|keys| - 1]);
      var step := PressKey(before.0, keys[|keys| - 1]);
      (step.0, if step.1 then !before.1 else before.1)
  }

  /** Below capacity a keydown pushes without shifting. */
  lemma PressKeyBelowCapacity(buffer: seq<string>, key: string)
    requires |buffer| < BUFFER_CAPACITY
    ensures PressKey(buffer, key) == if YodaMatched(buffer + [key]) then ([], true) else (buffer + [key], false)
  {
  }

  /** A proper prefix of the code is not a match. */
  lemma CodePrefixDoesNotMatch(k: nat)
    requires 1 <= k < |YODA_CODE|
    ensures !YodaMatched(YODA_CODE[..k])
  {
    forall i | 0 <= i < k ensures ',' !in YODA_CODE[..k][i] {
      assert YODA_CODE[..k][i] in YODA_CODE;
    }
    YodaMatchIsExact(YODA_CODE[..k]);
    assert |YODA_CODE[..k]| != |YODA_CODE|;
  }

  /** Typing part of the code into an empty buffer only fills the buffer. */
  lemma TypingYodaPrefix(yodaMode: bool, k: nat)
    requires k < |YODA_CODE|
    ensures PressKeys([], yodaMode, YODA_CODE[..k]) == (YODA_CODE[..k], yodaMode)
  {
    forall j | 1 <= j <= k ensures !PrefixMatched(YODA_CODE, j) {
      CodePrefixDoesNotMatch(j);
    }
    FillPrefix(YODA_CODE, yodaMode, k);
  }

  /** The first `j` keys of `keys` join to the code. */
  predicate PrefixMatched(keys: seq<string>, j: nat)
    requires j <= |keys|
  {
    YodaMatched(keys[..j])
  }

  /** Typing keys none of whose first few join to the code only fills the buffer, up to its capacity. */
  lemma {:induction false} FillPrefix(keys: seq<string>, yodaMode: bool, k: nat)
    requires k <= |keys| && k <= BUFFER_CAPACITY
    requires forall j :: 1 <= j <= k ==> !PrefixMatched(keys, j)
    ensures PressKeys([], yodaMode, keys[..k]) == (keys[..k], yodaMode)
    decreases k
  {
    if k > 0 {
      FillPrefix(keys, yodaMode, k - 1);
      TakeSnoc(keys, k);
      assert !PrefixMatched(keys, k);
      FillStep(yodaMode, keys[..k - 1], keys[k - 1], keys[..k]);
    }
  }

  /** One more key below capacity that does not complete a match only grows the buffer. */
  lemma FillStep(yodaMode: bool, before: seq<string>, key: string, after: seq<string>)
    requires |before| < BUFFER_CAPACITY && after == before + [key]
    requires PressKeys([], yodaMode, before) == (before, yodaMode)
    requires !YodaMatched(after)
    ensures PressKeys([], yodaMode, after) == (after, yodaMode)
  {
    assert after[..|after| - 1] == before;
    PressKeyBelowCapacity(before, key);
  }

  /** Typing the code into an empty buffer toggles Yoda mode once and empties the buffer. */
  lemma TypingYodaCodeToggles(yodaMode: bool)
    ensures PressKeys([], yodaMode, YODA_CODE) == ([], !yodaMode)
  {
    var n := |YODA_CODE|;
    TypingYodaPrefix(yodaMode, n - 1);
    TakeSnoc(YODA_CODE, n);
    assert YODA_CODE[..n] == YODA_CODE;
    PressKeyBelowCapacity(YODA_CODE[..n - 1], YODA_CODE[n - 1]);
  }

  // ---------------------------------------------------------------------------
  // The application state

  /** The state hooks of `App` that the handlers below read and write. */
  class ForceForecastApp {
    const store: Storage.Store
    var isLoading: bool
    var currentPlan: Option<DailyPlan>
    var journalEntry: string
    var showResults: bool
    var yodaMode: bool
    var keyBuffer: seq<string>

    ghost predicate Valid()
      reads this
    {
      |keyBuffer| <= BUFFER_CAPACITY
    }

    constructor (store: Storage.Store)
      ensures Valid() && this.store == store
      ensures !isLoading && currentPlan == None && journalEntry == [] && !showResults
      ensures !yodaMode && keyBuffer == []
    {
      this.store := store;
      isLoading := false;
      currentPlan := None;
      journalEntry := [];
      showResults := false;
      yodaMode := false;
      keyBuffer := [];
    }

    /**
     * `handlePromptSubmit` once the generator has answered: invalid content
     * leaves the plan alone and ends loading; valid content becomes the new
     * current plan with an empty journal entry.  Results stay hidden until
     * `RevealResults`.
     */
    method PromptSubmit(prompt: string, roll: nat, content: Option<RawContent>, now: nat, today: Date, createdAt: string)
      requires roll < |DEFAULT_PROMPTS|
      requires 0 <= today.month < 12 && today.day >= 1
      modifies this
      ensures !isLoading && !showResults
      ensures yodaMode == old(yodaMode) && keyBuffer == old(keyBuffer)
      ensures !ValidContent(content) ==> currentPlan == old(currentPlan) && journalEntry == old(journalEntry)
      ensures ValidContent(content) ==>
        currentPlan == Some(NewPlan(content.value, FinalPrompt(prompt, roll), now, today, createdAt))
        && journalEntry == []
    {
      isLoading := true;
      showResults := false;
      var finalPrompt := if prompt != [] then prompt else DEFAULT_PROMPTS[roll];
      if content.None? || content.value.schedule.Untyped? || content.value.goals.Untyped?
         || content.value.journalPrompt.Untyped? {
        isLoading := false;
        return;
      }
      var c := content.value;
      var newPlan := DailyPlan(NatToString(now), LocaleDateString(today), finalPrompt, c.schedule.value,
        c.goals.value, c.journalPrompt.value, "", createdAt);
      currentPlan := Some(newPlan);
      journalEntry := "";
      isLoading := false;
    }

    /** The delayed `setShowResults(true)` after a plan is made. */
    method RevealResults()
      modifies this
      ensures showResults
      ensures currentPlan == old(currentPlan) && journalEntry == old(journalEntry) && isLoading == old(isLoading)
      ensures yodaMode == old(yodaMode) && keyBuffer == old(keyBuffer)
    {
      showResults := true;
    }

    /** The journal's `onChange`. */
    method EditJournal(text: string)
      modifies this
      ensures journalEntry == text
      ensures currentPlan == old(currentPlan) && showResults == old(showResults) && isLoading == old(isLoading)
      ensures yodaMode == old(yodaMode) && keyBuffer == old(keyBuffer)
    {
      journalEntry := text;
    }

    /** `handleSave`: store the current plan with the journal entry written in; nothing without a plan. */
    method HandleSave()
      modifies this, store
      ensures old(currentPlan).None? ==> currentPlan == None && store.items == old(store.items)
      ensures old(currentPlan).Some? ==>
        var updated := old(currentPlan).value.(journalEntry := old(journalEntry));
        currentPlan == Some(updated)
        && store.GetPlans() == Upsert(old(store.GetPlans()), PlanId, updated)
        && store.GetCalendarEvents() == old(store.GetCalendarEvents())
      ensures journalEntry == old(journalEntry) && showResults == old(showResults) && isLoading == old(isLoading)
      ensures yodaMode == old(yodaMode) && keyBuffer == old(keyBuffer)
    {
      if currentPlan.Some? {
        var updatedPlan := currentPlan.value.(journalEntry := journalEntry);
        store.SavePlan(updatedPlan);
        currentPlan := Some(updatedPlan);
      }
    }

    /** `handleExportText`: the file name and the report of the current plan, if any. */
    method HandleExportText() returns (file: Option<(string, string)>)
      ensures file.None? <==> currentPlan.None?
      ensures file.Some? ==> '/' !in file.value.0
      ensures file.Some? ==> file.value.0 == ExportFileName(currentPlan.value.date)
      ensures file.Some? ==> file.value.1 == Storage.ExportPlanAsText(currentPlan.value.(journalEntry := journalEntry))
    {
      if currentPlan.None? {
        return None;
      }
      var updatedPlan := currentPlan.value.(journalEntry := journalEntry);
      var textData := Storage.ExportPlanAsText(updatedPlan);
      ExportFileNameSpec(currentPlan.value.date);
      return Some((ExportFileName(currentPlan.value.date), textData));
    }

    /** `handleClear`. */
    method HandleClear()
      modifies this
      ensures currentPlan == None && journalEntry == [] && !showResults
      ensures isLoading == old(isLoading) && yodaMode == old(yodaMode) && keyBuffer == old(keyBuffer)
    {
      currentPlan := None;
      journalEntry := "";
      showResults := false;
    }

    /** The window `keydown` listener: push, shift past ten keys, and on a match toggle Yoda mode and reset. */
    method OnKeyDown(key: string)
      requires Valid()
      modifies this
      ensures Valid()
      ensures keyBuffer == PressKey(old(keyBuffer), key).0
      ensures yodaMode == (if PressKey(old(keyBuffer), key).1 then !old(yodaMode) else old(yodaMode))
      ensures currentPlan == old(currentPlan) && journalEntry == old(journalEntry)
      ensures showResults == old(showResults) && isLoading == old(isLoading)
    {
      ghost var before := keyBuffer;
      keyBuffer := keyBuffer + [key];
      if |keyBuffer| > BUFFER_CAPACITY {
        keyBuffer := keyBuffer[1..];
      }
      PushThenShift(before, key, keyBuffer);
      ghost var pressed := PressKey(before, key);
      if YodaMatched(keyBuffer) {
        assert pressed == ([], true);
        yodaMode := !yodaMode;
        keyBuffer := [];
      } else {
        assert pressed == (keyBuffer, false);
      }
    }
  }
}

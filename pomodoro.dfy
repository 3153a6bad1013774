/**
 * The focus timer and music list of the side panel
 * (src/components/PomodoroSidebar.tsx).
 *
 * The timer record is a value updated by pure functions, one per state
 * updater the component passes to `setPomodoro`; the component itself is a
 * class whose handlers apply them.  The one-second interval and the effect
 * that reacts to the timer reaching zero are separate methods, called in
 * whatever order time and React would call them.
 */
module Pomodoro {
  import opened Types
  import opened Text
  import opened Collections

  datatype Mode = Work | ShortBreak | LongBreak

  /** Durations are in minutes, `timeLeft` in seconds. */
  datatype PomodoroState = PomodoroState(
    timeLeft: int,
    isRunning: bool,
    mode: Mode,
    session: int,
    workTime: int,
    shortBreakTime: int,
    longBreakTime: int)

  const DEFAULT_WORK: int := 25
  const DEFAULT_SHORT_BREAK: int := 5
  const DEFAULT_LONG_BREAK: int := 15

  /** Every fourth work session is followed by the long break. */
  const SESSIONS_PER_LONG_BREAK: int := 4

  /** A 25-minute work session, stopped, in session 1. */
  const InitialPomodoro: PomodoroState :=
    PomodoroState(DEFAULT_WORK * 60, false, Work, 1, DEFAULT_WORK, DEFAULT_SHORT_BREAK, DEFAULT_LONG_BREAK)

  /** The length in minutes of the current mode's interval. */
  function ModeMinutes(s: PomodoroState): int {
    match s.mode
    case Work => s.workTime
    case ShortBreak => s.shortBreakTime
    case LongBreak => s.longBreakTime
  }

  // ---------------------------------------------------------------------------
  // Timer updates

  /** The interval's updater: one second off the clock. */
  function Tick(s: PomodoroState): PomodoroState {
    s.(timeLeft := s.timeLeft - 1)
  }

  /**
   * `handleTimerComplete`'s updater.  A finished work interval counts the
   * session and is followed by a break; a finished break is followed by
   * work.  The timer stops either way.  (`session % 4 === 0` has the same
   * truth value under JavaScript's and Dafny's remainder.)
   */
  function Completed(s: PomodoroState): PomodoroState {
    if s.mode == Work then
      if s.session % SESSIONS_PER_LONG_BREAK == 0 then
        s.(mode := LongBreak, timeLeft := s.longBreakTime * 60, session := s.session + 1, isRunning := false)
      else
        s.(mode := ShortBreak, timeLeft := s.shortBreakTime * 60, session := s.session + 1, isRunning := false)
    else
      s.(mode := Work, timeLeft := s.workTime * 60, isRunning := false)
  }

  function Started(s: PomodoroState): PomodoroState {
    s.(isRunning := true)
  }

  function Paused(s: PomodoroState): PomodoroState {
    s.(isRunning := false)
  }

  /** `resetTimer`'s updater: stop and refill the clock for the current mode. */
  function Reset(s: PomodoroState): PomodoroState {
    s.(isRunning := false, timeLeft := ModeMinutes(s) * 60)
  }

  /**
   * `parseInt(value) || fallback`: the parsed number (`None` for NaN),
   * unless it is NaN or zero.
   */
  function SettingOrDefault(parsed: Option<int>, fallback: int): (r: int)
    ensures parsed == None || parsed == Some(0) ==> r == fallback
    ensures parsed.Some? && parsed.value != 0 ==> r == parsed.value
    ensures fallback != 0 ==> r != 0
  {
    if parsed.None? || parsed.value == 0 then fallback else parsed.value
  }

  function WithWorkTime(s: PomodoroState, parsed: Option<int>): PomodoroState {
    s.(workTime := SettingOrDefault(parsed, DEFAULT_WORK))
  }

  function WithShortBreakTime(s: PomodoroState, parsed: Option<int>): PomodoroState {
    s.(shortBreakTime := SettingOrDefault(parsed, DEFAULT_SHORT_BREAK))
  }

  function WithLongBreakTime(s: PomodoroState, parsed: Option<int>): PomodoroState {
    s.(longBreakTime := SettingOrDefault(parsed, DEFAULT_LONG_BREAK))
  }

  // ---------------------------------------------------------------------------
  // Properties of the timer

  /** A tick takes exactly one second off and changes nothing else. */
  lemma TickTakesOneSecond(s: PomodoroState)
    ensures Tick(s).timeLeft == s.timeLeft - 1
    ensures Tick(s).(timeLeft := s.timeLeft) == s
  {
  }

  /** `n` ticks in a row. */
  function Ticks(s: PomodoroState, n: nat): PomodoroState
    decreases n
  {
    if n == 0 then s else Tick(Ticks(s, n - 1))
  }

  /** `n` ticks take `n` seconds off and touch nothing else. */
  lemma {:induction false} TicksCountDown(s: PomodoroState, n: nat)
    ensures Ticks(s, n) == s.(timeLeft := s.timeLeft - n)
    decreases n
  {
    if n > 0 {
      TicksCountDown(s, n - 1);
    }
  }

  /** Running an interval down to zero and completing it is completing it: the outcome does not depend on the clock. */
  lemma RunToZeroThenComplete(s: PomodoroState)
    requires s.timeLeft >= 0
    ensures Ticks(s, s.timeLeft).timeLeft == 0
    ensures Completed(Ticks(s, s.timeLeft)) == Completed(s)
  {
    TicksCountDown(s, s.timeLeft);
  }

  /** The completion rule: which interval follows, for how long, and what the session counter does. */
  lemma CompletionRule(s: PomodoroState)
    ensures var r := Completed(s);
      !r.isRunning
      && r.workTime == s.workTime && r.shortBreakTime == s.shortBreakTime && r.longBreakTime == s.longBreakTime
      && (s.mode == Work && s.session % 4 == 0 ==>
            r.mode == LongBreak && r.timeLeft == s.longBreakTime * 60 && r.session == s.session + 1)
      && (s.mode == Work && s.session % 4 != 0 ==>
            r.mode == ShortBreak && r.timeLeft == s.shortBreakTime * 60 && r.session == s.session + 1)
      && (s.mode != Work ==> r.mode == Work && r.timeLeft == s.workTime * 60 && r.session == s.session)
  {
  }

  /** After a completion the clock is full: resetting changes nothing. */
  lemma CompletedIsReset(s: PomodoroState)
    ensures Reset(Completed(s)) == Completed(s)
  {
  }

  /** Reset stops the clock and refills it for the current mode; mode, session and durations stay. */
  lemma ResetRule(s: PomodoroState)
    ensures !Reset(s).isRunning && Reset(s).timeLeft == ModeMinutes(s) * 60
    ensures Reset(s).mode == s.mode && Reset(s).session == s.session
    ensures Reset(s).workTime == s.workTime && Reset(s).shortBreakTime == s.shortBreakTime
    ensures Reset(s).longBreakTime == s.longBreakTime
    ensures Reset(Reset(s)) == Reset(s)
  {
  }

  /** Changing a setting never touches the clock or the mode, and a blank or zero entry restores the default. */
  lemma SettingsKeepTheClock(s: PomodoroState, parsed: Option<int>)
    ensures WithWorkTime(s, parsed).timeLeft == s.timeLeft && WithWorkTime(s, parsed).mode == s.mode
    ensures WithShortBreakTime(s, parsed).timeLeft == s.timeLeft && WithShortBreakTime(s, parsed).mode == s.mode
    ensures WithLongBreakTime(s, parsed).timeLeft == s.timeLeft && WithLongBreakTime(s, parsed).mode == s.mode
    ensures parsed == None || parsed == Some(0) ==>
      WithWorkTime(s, parsed).workTime == 25 && WithShortBreakTime(s, parsed).shortBreakTime == 5
      && WithLongBreakTime(s, parsed).longBreakTime == 15
  {
  }

  /** `n` completions in a row. */
  function Completions(s: PomodoroState, n: nat): PomodoroState
    decreases n
  {
    if n == 0 then s else Completed(Completions(s, n - 1))
  }

  /**
   * From the initial state, after `k` work intervals and their breaks the
   * timer is back at a full work interval in session `k + 1`; the break
   * after the `k + 1`-th work interval is long exactly when `k + 1` is a
   * multiple of four.
   */
  lemma {:induction false} CycleFromInitial(k: nat)
    ensures Completions(InitialPomodoro, 2 * k) == InitialPomodoro.(session := k + 1)
    ensures Completions(InitialPomodoro, 2 * k + 1).mode == (if (k + 1) % 4 == 0 then LongBreak else ShortBreak)
    ensures Completions(InitialPomodoro, 2 * k + 1).session == k + 2
    decreases k
  {
    if k > 0 {
      CycleFromInitial(k - 1);
      assert 2 * k == (2 * (k - 1) + 1) + 1;
    }
  }

  /** Work sessions one to three end in short breaks, the fourth in the long break. */
  lemma FourthSessionEarnsLongBreak()
    ensures Completions(InitialPomodoro, 1).mode == ShortBreak
    ensures Completions(InitialPomodoro, 3).mode == ShortBreak
    ensures Completions(InitialPomodoro, 5).mode == ShortBreak
    ensures Completions(InitialPomodoro, 7).mode == LongBreak
    ensures Completions(InitialPomodoro, 7).timeLeft == 15 * 60
  {
    CycleFromInitial(0);
    CycleFromInitial(1);
    CycleFromInitial(2);
    CycleFromInitial(3);
  }

  // ---------------------------------------------------------------------------
  // formatTime

  /** JavaScript's `%`, whose remainder takes the sign of the dividend. */
  function JsRemainder(a: int, b: int): (r: int)
    requires b > 0
    ensures a >= 0 ==> 0 <= r < b && r == a % b
    ensures a < 0 ==> -b < r <= 0
    ensures (a - r) % b == 0
  {
    if a >= 0 then
      MultipleMod(a - a % b, a / b, b);
      a % b
    else
      var q := (-a) / b;
      assert -a == q * b + (-a) % b;
      MultipleMod(a + (-a) % b, -q, b);
      -((-a) % b)
  }

  lemma MulAtLeast(k: int, b: int)
    requires k >= 1 && b > 0
    ensures k * b >= b
  {
    assert k * b == (k - 1) * b + b;
    assert (k - 1) * b >= 0;
  }

  /** A multiple of `b` leaves no remainder. */
  lemma MultipleMod(x: int, q: int, b: int)
    requires b > 0 && x == q * b
    ensures x % b == 0
  {
    var m, p := x % b, x / b;
    assert x == p * b + m;
    var k := q - p;
    assert k * b == m by { assert k * b == q * b - p * b; }
    if k >= 1 { MulAtLeast(k, b); }
    else if k <= -1 { MulAtLeast(-k, b); }
  }

  /**
   * `formatTime`: whole minutes (`Math.floor(seconds / 60)`, which is
   * Dafny's division for a positive divisor) and the remaining seconds, each
   * padded to two digits.
   */
  function FormatTime(seconds: int): string {
    PadStart(IntToString(seconds / 60), 2, '0') + ":" + PadStart(IntToString(JsRemainder(seconds, 60)), 2, '0')
  }

  /** A number printed at least two digits wide reads back as itself. */
  lemma PaddedReadsBack(n: nat)
    ensures |PadStart(NatToString(n), 2, '0')| >= 2
    ensures IsDigits(PadStart(NatToString(n), 2, '0'))
    ensures ParseNat(PadStart(NatToString(n), 2, '0')) == n
  {
    if n < 100 {
      TwoDigits(n);
    } else {
      ParseNatToString(n);
    }
  }

  /**
   * For a non-negative number of seconds the display is "MM:SS": it splits
   * at the colon into minutes and a two-digit seconds field below 60 that
   * together read back as the input.
   */
  lemma FormatTimeReadsBack(seconds: int)
    requires seconds >= 0
    ensures var parts := Split(FormatTime(seconds), ':');
      |parts| == 2 && IsDigits(parts[0]) && IsDigits(parts[1]) && |parts[1]| == 2
      && ParseNat(parts[1]) < 60
      && ParseNat(parts[0]) * 60 + ParseNat(parts[1]) == seconds
  {
    var mins := PadStart(NatToString(seconds / 60), 2, '0');
    var secs := PadStart(NatToString(seconds % 60), 2, '0');
    FormatTimeParts(seconds);
    PaddedReadsBack(seconds / 60);
    TwoDigits(seconds % 60);
    ColonSplitsFields(mins, secs);
  }

  /** Two digit fields joined by a colon split back into the two fields. */
  lemma ColonSplitsFields(a: string, b: string)
    requires IsDigits(a) && IsDigits(b)
    ensures Split(a + [':'] + b, ':') == [a, b]
  {
    DigitsHaveNoColon(a);
    DigitsHaveNoColon(b);
    SplitAtFirstSeparator(a, ':', b);
    SplitWithoutSeparator(b, ':');
  }

  /** For a non-negative input both fields are plain non-negative numbers. */
  lemma FormatTimeParts(seconds: int)
    requires seconds >= 0
    ensures FormatTime(seconds)
      == PadStart(NatToString(seconds / 60), 2, '0') + [':'] + PadStart(NatToString(seconds % 60), 2, '0')
  {
  }

  lemma DigitsHaveNoColon(s: string)
    requires IsDigits(s)
    ensures ':' !in s
  {
    forall i | 0 <= i < |s| ensures s[i] != ':' {
      assert IsDigit(s[i]);
    }
  }

  /** Below 100 minutes the display is exactly five characters with the colon in the middle. */
  lemma FormatTimeShape(seconds: int)
    requires 0 <= seconds < 6000
    ensures |FormatTime(seconds)| == 5 && FormatTime(seconds)[2] == ':'
  {
    var mins := PadStart(NatToString(seconds / 60), 2, '0');
    var secs := PadStart(NatToString(seconds % 60), 2, '0');
    FormatTimeParts(seconds);
    TwoDigits(seconds / 60);
    TwoDigits(seconds % 60);
    ColonBetween(mins, secs);
  }

  lemma ColonBetween(a: string, b: string)
    requires |a| == 2 && |b| == 2
    ensures |a + [':'] + b| == 5 && (a + [':'] + b)[2] == ':'
  {
  }

  // ---------------------------------------------------------------------------
  // Music

  datatype Track = Track(id: string, title: string, artist: string, duration: string, category: string, url: string)

  const SAMPLE_URL: string := "https://www.soundhelix.com/examples/mp3/SoundHelix-Song-1.mp3"

  const MusicTracks: seq<Track> := [
    Track("1", "Imperial March", "John Williams", "3:02", "epic", "/assets/Imperial-March.mp3"),
    Track("2", "Duel of the Fates", "John Williams", "4:14", "epic", SAMPLE_URL),
    Track("3", "The Force Theme", "John Williams", "5:12", "ambient", SAMPLE_URL),
    Track("4", "Dark Side Meditation", "Sith Academy", "8:30", "dark", SAMPLE_URL),
    Track("5", "Binary Sunset", "John Williams", "2:46", "ambient", SAMPLE_URL),
    Track("6", "Cantina Band", "John Williams", "2:46", "focus", SAMPLE_URL),
    Track("7", "Vader's Theme", "John Williams", "3:15", "dark", SAMPLE_URL),
    Track("8", "Jedi Temple March", "John Williams", "4:02", "focus", SAMPLE_URL),
    Track("9", "Throne Room", "John Williams", "5:41", "epic", SAMPLE_URL),
    Track("10", "Asteroid Field", "John Williams", "4:18", "ambient", SAMPLE_URL)
  ]

  const ALL_CATEGORIES: string := "all"

  /** `filteredTracks`: every track for "all", otherwise the tracks of that category. */
  function FilterByCategory(tracks: seq<Track>, category: string): seq<Track> {
    if category == ALL_CATEGORIES then tracks else Filter(tracks, (t: Track) => t.category == category)
  }

  /** The filter keeps exactly the tracks of the category, in their listed order. */
  lemma FilterByCategorySpec(tracks: seq<Track>, category: string)
    ensures category == ALL_CATEGORIES ==> FilterByCategory(tracks, category) == tracks
    ensures category != ALL_CATEGORIES ==>
      var r := FilterByCategory(tracks, category);
      (forall i :: 0 <= i < |r| ==> r[i] in tracks && r[i].category == category)
      && (forall i :: 0 <= i < |tracks| && tracks[i].category == category ==> tracks[i] in r)
  {
  }

  /** Filtering distributes over a split of the list, which is what keeping the order means. */
  lemma FilterByCategoryKeepsOrder(a: seq<Track>, b: seq<Track>, category: string)
    ensures FilterByCategory(a + b, category) == FilterByCategory(a, category) + FilterByCategory(b, category)
  {
    if category != ALL_CATEGORIES {
      FilterAppend(a, b, (t: Track) => t.category == category);
    }
  }

  /** `(i + 1) % length`. */
  function NextIndex(i: int, length: int): (r: int)
    requires 0 <= i < length
    ensures 0 <= r < length
    ensures r == if i == length - 1 then 0 else i + 1
  {
    (i + 1) % length
  }

  /** `i === 0 ? length - 1 : i - 1`. */
  function PrevIndex(i: int, length: int): (r: int)
    requires 0 <= i < length
    ensures 0 <= r < length
  {
    if i == 0 then length - 1 else i - 1
  }

  /** Stepping forward and back are inverse to each other. */
  lemma NextPrevInverse(i: int, length: int)
    requires 0 <= i < length
    ensures PrevIndex(NextIndex(i, length), length) == i
    ensures NextIndex(PrevIndex(i, length), length) == i
  {
  }

  // ---------------------------------------------------------------------------
  // The component

  /** The side panel's state hooks (volume, mute and the settings toggle are not modelled). */
  class PomodoroSidebar {
    var pomodoro: PomodoroState
    var currentTrack: Option<Track>
    var isPlaying: bool
    var selectedCategory: string
    var playlist: seq<Track>
    var currentTrackIndex: int

    /** The track index points into the playlist whenever the playlist is not empty. */
    ghost predicate Valid()
      reads this
    {
      0 <= currentTrackIndex && (|playlist| > 0 ==> currentTrackIndex < |playlist|)
    }

    /** The playlist starts empty, and nothing in the component ever fills it. */
    constructor ()
      ensures Valid()
      ensures pomodoro == InitialPomodoro && currentTrack == None && !isPlaying
      ensures selectedCategory == ALL_CATEGORIES && playlist == [] && currentTrackIndex == 0
    {
      pomodoro := InitialPomodoro;
      currentTrack := None;
      isPlaying := false;
      selectedCategory := ALL_CATEGORIES;
      playlist := [];
      currentTrackIndex := 0;
    }

    /** The tracks listed under the selected category. */
    function FilteredTracks(): seq<Track>
      reads this
    {
      FilterByCategory(MusicTracks, selectedCategory)
    }

    /** One firing of the interval, which exists only while the timer runs with time left. */
    method IntervalTick()
      requires pomodoro.isRunning && pomodoro.timeLeft > 0
      modifies this
      ensures pomodoro == Tick(old(pomodoro))
      ensures currentTrack == old(currentTrack) && isPlaying == old(isPlaying)
      ensures selectedCategory == old(selectedCategory) && playlist == old(playlist)
      ensures currentTrackIndex == old(currentTrackIndex)
    {
      pomodoro := pomodoro.(timeLeft := pomodoro.timeLeft - 1);
    }

    /**
     * The timer effect, run after `isRunning` or `timeLeft` changed: a
     * running clock with time left gets its interval, which fires as
     * `IntervalTick`; a clock at zero completes the interval (the
     * notification is not modelled); otherwise the timer is left as it is.
     */
    method TimerEffect()
      modifies this
      ensures old(pomodoro).timeLeft != 0 ==> pomodoro == old(pomodoro)
      ensures old(pomodoro).timeLeft == 0 ==> pomodoro == Completed(old(pomodoro))
      ensures currentTrack == old(currentTrack) && isPlaying == old(isPlaying)
      ensures selectedCategory == old(selectedCategory) && playlist == old(playlist)
      ensures currentTrackIndex == old(currentTrackIndex)
    {
      if pomodoro.isRunning && pomodoro.timeLeft > 0 {
        // the interval is installed; it fires as IntervalTick
      } else if pomodoro.timeLeft == 0 {
        HandleTimerComplete();
      }
    }

    /** `handleTimerComplete`. */
    method HandleTimerComplete()
      modifies this
      ensures pomodoro == Completed(old(pomodoro))
      ensures currentTrack == old(currentTrack) && isPlaying == old(isPlaying)
      ensures selectedCategory == old(selectedCategory) && playlist == old(playlist)
      ensures currentTrackIndex == old(currentTrackIndex)
    {
      var newMode: Mode;
      var newTimeLeft: int;
      var newSession := pomodoro.session;
      if pomodoro.mode == Work {
        if pomodoro.session % SESSIONS_PER_LONG_BREAK == 0 {
          newMode := LongBreak;
          newTimeLeft := pomodoro.longBreakTime * 60;
        } else {
          newMode := ShortBreak;
          newTimeLeft := pomodoro.shortBreakTime * 60;
        }
        newSession := pomodoro.session + 1;
      } else {
        newMode := Work;
        newTimeLeft := pomodoro.workTime * 60;
      }
      pomodoro := pomodoro.(mode := newMode, timeLeft := newTimeLeft, session := newSession, isRunning := false);
    }

    /** `startTimer` (the notification permission request is not modelled). */
    method StartTimer()
      modifies this
      ensures pomodoro == Started(old(pomodoro))
      ensures currentTrack == old(currentTrack) && isPlaying == old(isPlaying)
      ensures selectedCategory == old(selectedCategory) && playlist == old(playlist)
      ensures currentTrackIndex == old(currentTrackIndex)
    {
      pomodoro := pomodoro.(isRunning := true);
    }

    method PauseTimer()
      modifies this
      ensures pomodoro == Paused(old(pomodoro))
      ensures currentTrack == old(currentTrack) && isPlaying == old(isPlaying)
      ensures selectedCategory == old(selectedCategory) && playlist == old(playlist)
      ensures currentTrackIndex == old(currentTrackIndex)
    {
      pomodoro := pomodoro.(isRunning := false);
    }

    method ResetTimer()
      modifies this
      ensures pomodoro == Reset(old(pomodoro))
      ensures currentTrack == old(currentTrack) && isPlaying == old(isPlaying)
      ensures selectedCategory == old(selectedCategory) && playlist == old(playlist)
      ensures currentTrackIndex == old(currentTrackIndex)
    {
      var minutes := if pomodoro.mode == Work then pomodoro.workTime
                     else if pomodoro.mode == ShortBreak then pomodoro.shortBreakTime
                     else pomodoro.longBreakTime;
      pomodoro := pomodoro.(isRunning := false, timeLeft := minutes * 60);
    }

    /** The work-time input; `parsed` is `parseInt` of the field, `None` for NaN. */
    method SetWorkTime(parsed: Option<int>)
      modifies this
      ensures pomodoro == WithWorkTime(old(pomodoro), parsed)
      ensures currentTrack == old(currentTrack) && isPlaying == old(isPlaying)
      ensures selectedCategory == old(selectedCategory) && playlist == old(playlist)
      ensures currentTrackIndex == old(currentTrackIndex)
    {
      pomodoro := pomodoro.(workTime := SettingOrDefault(parsed, DEFAULT_WORK));
    }

    method SetShortBreakTime(parsed: Option<int>)
      modifies this
      ensures pomodoro == WithShortBreakTime(old(pomodoro), parsed)
      ensures currentTrack == old(currentTrack) && isPlaying == old(isPlaying)
      ensures selectedCategory == old(selectedCategory) && playlist == old(playlist)
      ensures currentTrackIndex == old(currentTrackIndex)
    {
      pomodoro := pomodoro.(shortBreakTime := SettingOrDefault(parsed, DEFAULT_SHORT_BREAK));
    }

    method SetLongBreakTime(parsed: Option<int>)
      modifies this
      ensures pomodoro == WithLongBreakTime(old(pomodoro), parsed)
      ensures currentTrack == old(currentTrack) && isPlaying == old(isPlaying)
      ensures selectedCategory == old(selectedCategory) && playlist == old(playlist)
      ensures currentTrackIndex == old(currentTrackIndex)
    {
      pomodoro := pomodoro.(longBreakTime := SettingOrDefault(parsed, DEFAULT_LONG_BREAK));
    }

    /** `playTrack` (starting the audio element is not modelled). */
    method PlayTrack(track: Track)
      modifies this
      ensures currentTrack == Some(track) && isPlaying
      ensures pomodoro == old(pomodoro) && selectedCategory == old(selectedCategory)
      ensures playlist == old(playlist) && currentTrackIndex == old(currentTrackIndex)
    {
      currentTrack := Some(track);
      isPlaying := true;
    }

    /** `togglePlayPause`; the audio element is always rendered while the panel is visible. */
    method TogglePlayPause()
      modifies this
      ensures isPlaying == !old(isPlaying)
      ensures pomodoro == old(pomodoro) && currentTrack == old(currentTrack)
      ensures selectedCategory == old(selectedCategory) && playlist == old(playlist)
      ensures currentTrackIndex == old(currentTrackIndex)
    {
      isPlaying := !isPlaying;
    }

    /** `nextTrack`: wrap around to the first track; nothing happens on an empty playlist. */
    method NextTrack()
      requires Valid()
      modifies this
      ensures Valid()
      ensures pomodoro == old(pomodoro) && selectedCategory == old(selectedCategory) && playlist == old(playlist)
      ensures old(playlist) == [] ==>
        currentTrackIndex == old(currentTrackIndex) && currentTrack == old(currentTrack) && isPlaying == old(isPlaying)
      ensures old(playlist) != [] ==>
        currentTrackIndex == NextIndex(old(currentTrackIndex), |old(playlist)|)
        && currentTrack == Some(playlist[currentTrackIndex]) && isPlaying
    {
      if |playlist| > 0 {
        var nextIndex := (currentTrackIndex + 1) % |playlist|;
        currentTrackIndex := nextIndex;
        PlayTrack(playlist[nextIndex]);
      }
    }

    /** `previousTrack`: wrap around to the last track; nothing happens on an empty playlist. */
    method PreviousTrack()
      requires Valid()
      modifies this
      ensures Valid()
      ensures pomodoro == old(pomodoro) && selectedCategory == old(selectedCategory) && playlist == old(playlist)
      ensures old(playlist) == [] ==>
        currentTrackIndex == old(currentTrackIndex) && currentTrack == old(currentTrack) && isPlaying == old(isPlaying)
      ensures old(playlist) != [] ==>
        currentTrackIndex == PrevIndex(old(currentTrackIndex), |old(playlist)|)
        && currentTrack == Some(playlist[currentTrackIndex]) && isPlaying
    {
      if |playlist| > 0 {
        var prevIndex := if currentTrackIndex == 0 then |playlist| - 1 else currentTrackIndex - 1;
        currentTrackIndex := prevIndex;
        PlayTrack(playlist[prevIndex]);
      }
    }

    /** A category button. */
    method SelectCategory(category: string)
      modifies this
      ensures selectedCategory == category
      ensures FilteredTracks() == FilterByCategory(MusicTracks, category)
      ensures pomodoro == old(pomodoro) && currentTrack == old(currentTrack) && isPlaying == old(isPlaying)
      ensures playlist == old(playlist) && currentTrackIndex == old(currentTrackIndex)
    {
      selectedCategory := category;
    }
  }
}

/**
 * The typewriter hook of src/utils/micro-animations.ts (`useTypewriterEffect`).
 *
 * After a start delay a character index walks over `text`; every firing of the
 * typing timer shows one more character of `text` followed by the cursor glyph.
 * At the end the cursor is dropped, or, with `loop`, the text is cleared after
 * `loopDelay` and typing starts again. Each timer firing is one call of `Fire`;
 * the one outstanding `setTimeout` is the `timer` field.
 *
 * JavaScript strings are sequences of UTF-16 code units, and `length` and
 * `substring` count code units, so the text, the cursor and the display are
 * modelled as `Units`, not as Dafny strings of code points.
 */
module Typewriter {
  import opened Wrappers

  /** One UTF-16 code unit. */
  newtype CodeUnit = x: int | 0 <= x < 0x1_0000

  /** A JavaScript string: its UTF-16 code units. */
  type Units = seq<CodeUnit>

  /** The code units of one code point: itself, or a surrogate pair above U+FFFF. */
  function EncodeChar(ch: char): (r: Units)
    ensures 1 <= |r| <= 2
    ensures |r| == 1 <==> (ch as int) < 0x1_0000
  {
    var cp := ch as int;
    if cp < 0x1_0000 then [cp as CodeUnit]
    else
      var v := cp - 0x1_0000;
      [(0xD800 + v / 0x400) as CodeUnit, (0xDC00 + v % 0x400) as CodeUnit]
  }

  /** The JavaScript string holding the code points of `s`. */
  function Utf16(s: string): (r: Units)
    ensures |s| <= |r| <= 2 * |s|
  {
    if s == [] then [] else EncodeChar(s[0]) + Utf16(s[1..])
  }

  /** The hook's default cursor, U+258A LEFT THREE QUARTERS BLOCK. */
  const BlockCursor: Units := [0x258A]

  /** The options object as passed by the caller; a missing entry takes its default. */
  datatype Options = Options(
    typingSpeed: Option<nat>,
    startDelay: Option<nat>,
    cursorCharacter: Option<Units>,
    loop: Option<bool>,
    loopDelay: Option<nat>)

  /** The options after destructuring with defaults. */
  datatype Config = Config(typingSpeed: nat, startDelay: nat, cursor: Units, loop: bool, loopDelay: nat)

  const NoOptions: Options := Options(None, None, None, None, None)

  function Resolve(o: Options): Config {
    Config(
      o.typingSpeed.GetOr(50),
      o.startDelay.GetOr(0),
      o.cursorCharacter.GetOr(BlockCursor),
      o.loop.GetOr(false),
      o.loopDelay.GetOr(2000))
  }

  /** The callbacks the hook hands to `setTimeout`. */
  datatype Callback = StartTyping | TypeNextChar | Restart

  /** The one pending timeout, if any, with its delay in milliseconds. */
  datatype Timer = Idle | Scheduled(callback: Callback, delay: nat)

  /**
   * The element's text content, the closure's `currentIndex`, the pending
   * timeout, and whether `startTyping` has run.
   */
  datatype State = State(display: Units, index: nat, timer: Timer, started: bool)

  /** The effect on mount: nothing happens without an element, otherwise `startTyping` is scheduled. */
  function Mount(c: Config, initial: Units, hasElement: bool): State {
    State(initial, 0, if hasElement then Scheduled(StartTyping, c.startDelay) else Idle, false)
  }

  /** `typeNextChar`: one more character, or the end of the text. */
  function TypeNext(c: Config, text: Units, s: State): State
    requires s.index <= |text|
  {
    if s.index < |text| then
      State(text[..s.index + 1] + c.cursor, s.index + 1, Scheduled(TypeNextChar, c.typingSpeed), s.started)
    else if c.loop then
      s.(timer := Scheduled(Restart, c.loopDelay))
    else
      s.(display := text, timer := Idle)
  }

  /** The pending timeout fires (nothing happens when none is pending). */
  function Next(c: Config, text: Units, s: State): State
    requires s.index <= |text|
  {
    match s.timer
    case Idle => s
    case Scheduled(StartTyping, _) => State(c.cursor, 0, Scheduled(TypeNextChar, c.typingSpeed), true)
    case Scheduled(TypeNextChar, _) => TypeNext(c, text, s)
    case Scheduled(Restart, _) => TypeNext(c, text, s.(display := c.cursor, index := 0))
  }

  /** The effect's cleanup: the pending timeout is cleared, the text content stays. */
  function Cleanup(s: State): State {
    s.(timer := Idle)
  }

  /** The state after `n` timer firings. */
  function Run(c: Config, text: Units, s: State, n: nat): State
    requires Inv(c, text, s)
    decreases n
  {
    if n == 0 then s else (InvNext(c, text, s); Run(c, text, Next(c, text, s), n - 1))
  }

  /** What the element may show once typing has started. */
  ghost predicate Shows(c: Config, text: Units, display: Units) {
    (exists k :: 0 <= k <= |text| && display == text[..k] + c.cursor) || display == text
  }

  /** The invariant the timer chain keeps. */
  ghost predicate Inv(c: Config, text: Units, s: State) {
    && s.index <= |text|
    && match s.timer
       case Scheduled(StartTyping, d) => !s.started && s.index == 0 && d == c.startDelay
       case Scheduled(TypeNextChar, d) =>
         s.started && d == c.typingSpeed && s.display == text[..s.index] + c.cursor
       case Scheduled(Restart, d) =>
         s.started && c.loop && d == c.loopDelay && s.index == |text| && s.display == text + c.cursor
       case Idle =>
         s.started ==> s.display == text[..s.index] + c.cursor || (s.index == |text| && s.display == text)
  }

  lemma InvMount(c: Config, text: Units, initial: Units, hasElement: bool)
    ensures Inv(c, text, Mount(c, initial, hasElement))
  {
  }

  lemma InvNext(c: Config, text: Units, s: State)
    requires Inv(c, text, s)
    ensures Inv(c, text, Next(c, text, s))
  {
    if s.timer == Scheduled(Restart, c.loopDelay) && |text| > 0 {
      assert text[..1] + c.cursor == Next(c, text, s).display;
    }
  }

  lemma InvCleanup(c: Config, text: Units, s: State)
    requires Inv(c, text, s)
    ensures Inv(c, text, Cleanup(s))
  {
  }

  /** Once typing has started, the display without its trailing cursor is a prefix of `text`, or it is `text` itself. */
  lemma DisplayIsPrefix(c: Config, text: Units, s: State)
    requires Inv(c, text, s) && s.started
    ensures Shows(c, text, s.display)
    ensures s.index <= |text|
  {
    if s.display != text {
      assert s.display == text[..s.index] + c.cursor;
    }
  }

  /** Starting a run resets the index and shows only the cursor. */
  lemma StartShowsCursor(c: Config, text: Units, s: State)
    requires Inv(c, text, s) && s.timer.Scheduled? && s.timer.callback == StartTyping
    ensures Next(c, text, s) == State(c.cursor, 0, Scheduled(TypeNextChar, c.typingSpeed), true)
  {
  }

  /** While characters remain, a step shows exactly one more of them and advances the index by one. */
  lemma StepTypesOneChar(c: Config, text: Units, s: State)
    requires Inv(c, text, s) && s.timer.Scheduled? && s.timer.callback == TypeNextChar
    requires s.index < |text|
    ensures Next(c, text, s).index == s.index + 1 <= |text|
    ensures Next(c, text, s).display == text[..s.index + 1] + c.cursor
    ensures Next(c, text, s).timer == Scheduled(TypeNextChar, c.typingSpeed)
  {
  }

  /** Without `loop`, the step at the end shows `text` without the cursor and schedules nothing. */
  lemma EndWithoutLoop(c: Config, text: Units, s: State)
    requires Inv(c, text, s) && s.timer.Scheduled? && s.timer.callback == TypeNextChar
    requires s.index == |text| && !c.loop
    ensures Next(c, text, s).display == text && Next(c, text, s).timer == Idle
  {
  }

  /** The state while typing, after `k` characters. */
  function Typing(c: Config, text: Units, k: nat): State
    requires k <= |text|
  {
    State(text[..k] + c.cursor, k, Scheduled(TypeNextChar, c.typingSpeed), true)
  }

  /** `n` more steps from `k` typed characters reach `k + n` typed characters. */
  lemma {:induction false} RunTyping(c: Config, text: Units, k: nat, n: nat)
    requires k + n <= |text|
    ensures Inv(c, text, Typing(c, text, k))
    ensures Run(c, text, Typing(c, text, k), n) == Typing(c, text, k + n)
    decreases n
  {
    if n > 0 {
      assert Next(c, text, Typing(c, text, k)) == Typing(c, text, k + 1);
      RunTyping(c, text, k + 1, n - 1);
    }
  }

  /**
   * Without `loop`, the start callback and `|text| + 1` typing steps leave the
   * full text on screen with no cursor and no pending timeout.
   */
  lemma CompletesWithoutLoop(c: Config, text: Units, initial: Units)
    requires !c.loop
    ensures Inv(c, text, Mount(c, initial, true))
    ensures Run(c, text, Mount(c, initial, true), |text| + 2) == State(text, |text|, Idle, true)
  {
    var m := Mount(c, initial, true);
    assert Next(c, text, m) == Typing(c, text, 0);
    assert Run(c, text, m, |text| + 2) == Run(c, text, Typing(c, text, 0), |text| + 1);
    RunTyping(c, text, 0, |text|);
    RunSplit(c, text, Typing(c, text, 0), |text|, 1);
    assert text[..|text|] == text;
  }

  /** Running `m` then `n` steps is running `m + n` steps. */
  lemma {:induction false} RunSplit(c: Config, text: Units, s: State, m: nat, n: nat)
    requires Inv(c, text, s)
    ensures Inv(c, text, Run(c, text, s, m))
    ensures Run(c, text, s, m + n) == Run(c, text, Run(c, text, s, m), n)
    decreases m
  {
    if m > 0 {
      InvNext(c, text, s);
      RunSplit(c, text, Next(c, text, s), m - 1, n);
    }
  }

  /** The state waiting for the loop delay after the whole text was typed. */
  function AwaitRestart(c: Config, text: Units): State {
    State(text + c.cursor, |text|, Scheduled(Restart, c.loopDelay), true)
  }

  /**
   * With `loop`, the text is typed to the end, the restart is scheduled, and
   * the restart clears the element and types the first character again: the
   * cycle repeats every `|text| + 1` firings.
   */
  lemma {:induction false} LoopIsPeriodic(c: Config, text: Units)
    requires c.loop && |text| > 0
    ensures Inv(c, text, Typing(c, text, 1))
    ensures Run(c, text, Typing(c, text, 1), |text| - 1) == Typing(c, text, |text|)
    ensures Run(c, text, Typing(c, text, 1), |text|) == AwaitRestart(c, text)
    ensures Run(c, text, Typing(c, text, 1), |text| + 1) == Typing(c, text, 1)
  {
    RunTyping(c, text, 1, |text| - 1);
    assert text[..|text|] == text;
    RunSplit(c, text, Typing(c, text, 1), |text| - 1, 1);
    RunSplit(c, text, Typing(c, text, 1), |text| - 1, 2);
    assert Next(c, text, Typing(c, text, |text|)) == AwaitRestart(c, text);
    assert Next(c, text, AwaitRestart(c, text)) == Typing(c, text, 1);
  }

  /**
   * With `loop` and an empty text, every restart shows the cursor alone and
   * schedules the next restart `loopDelay` ms later, forever.
   */
  lemma EmptyTextLoopsOnCursor(c: Config)
    requires c.loop
    ensures AwaitRestart(c, []) == State(c.cursor, 0, Scheduled(Restart, c.loopDelay), true)
    ensures Inv(c, [], AwaitRestart(c, []))
    ensures Next(c, [], AwaitRestart(c, [])) == AwaitRestart(c, [])
  {
  }

  /** After cleanup no firing changes anything: the chain is dead. */
  lemma {:induction false} CleanupStops(c: Config, text: Units, s: State, n: nat)
    requires Inv(c, text, s)
    ensures Inv(c, text, Cleanup(s))
    ensures Run(c, text, Cleanup(s), n) == Cleanup(s)
    decreases n
  {
    if n > 0 {
      CleanupStops(c, text, s, n - 1);
      RunSplit(c, text, Cleanup(s), 1, n - 1);
    }
  }

  /**
   * The resolved options drive the timer chain: the start waits `startDelay`,
   * shows the chosen cursor, and each character waits `typingSpeed`; at the
   * end of the text, `loop: true` waits `loopDelay` (2000 ms by default) for
   * the restart, and otherwise (the default) typing stops.
   */
  lemma OptionsDriveTimers(o: Options, text: Units, initial: Units)
    ensures Mount(Resolve(o), initial, true).timer == Scheduled(StartTyping, o.startDelay.GetOr(0))
    ensures Next(Resolve(o), text, Mount(Resolve(o), initial, true))
         == State(o.cursorCharacter.GetOr(BlockCursor), 0, Scheduled(TypeNextChar, o.typingSpeed.GetOr(50)), true)
    ensures o.loop == Some(true) ==>
      Next(Resolve(o), text, Typing(Resolve(o), text, |text|)) == AwaitRestart(Resolve(o), text)
      && AwaitRestart(Resolve(o), text).timer == Scheduled(Restart, o.loopDelay.GetOr(2000))
    ensures o.loop != Some(true) ==>
      Next(Resolve(o), text, Typing(Resolve(o), text, |text|)) == State(text, |text|, Idle, true)
  {
    assert text[..|text|] == text;
  }

  /**
   * Without options the hook starts at once with the block cursor, types a
   * character every 50 ms, and stops after the last one with the cursor gone.
   */
  lemma {:induction false} DefaultsBehaviour(text: Units, initial: Units)
    ensures Mount(Resolve(NoOptions), initial, true).timer == Scheduled(StartTyping, 0)
    ensures Inv(Resolve(NoOptions), text, Mount(Resolve(NoOptions), initial, true))
    ensures Run(Resolve(NoOptions), text, Mount(Resolve(NoOptions), initial, true), 1)
         == State(BlockCursor, 0, Scheduled(TypeNextChar, 50), true)
    ensures Run(Resolve(NoOptions), text, Mount(Resolve(NoOptions), initial, true), |text| + 2)
         == State(text, |text|, Idle, true)
  {
    CompletesWithoutLoop(Resolve(NoOptions), text, initial);
  }

  /**
   * Text outside the Basic Multilingual Plane takes one step per code unit:
   * typing U+1F600 takes two steps, and between them the element shows the
   * lone high surrogate followed by the cursor.
   */
  lemma SurrogatePairTypesInTwoSteps(c: Config)
    requires !c.loop
    ensures Utf16("\U{1F600}") == [0xD83D, 0xDE00]
    ensures Run(c, Utf16("\U{1F600}"), Mount(c, [], true), 2) == State([0xD83D] + c.cursor, 1, Scheduled(TypeNextChar, c.typingSpeed), true)
    ensures Run(c, Utf16("\U{1F600}"), Mount(c, [], true), 4) == State([0xD83D, 0xDE00], 2, Idle, true)
  {
    var text := Utf16("\U{1F600}");
    assert text == [0xD83D, 0xDE00];
    CompletesWithoutLoop(c, text, []);
    assert Next(c, text, Mount(c, [], true)) == Typing(c, text, 0);
    RunTyping(c, text, 0, 1);
    assert text[..1] == [0xD83D];
  }

  /** The element the hook drives, with the closure state of the running effect. */
  class TypewriterElement {
    const text: Units
    const config: Config
    var display: Units
    var index: nat
    var timer: Timer
    var started: bool

    function Snapshot(): State
      reads this
    {
      State(display, index, timer, started)
    }

    ghost predicate Valid()
      reads this
    {
      Inv(config, text, Snapshot())
    }

    /** Mounting the hook on an element whose current text content is `initial`. */
    constructor (text: Units, options: Options, initial: Units, hasElement: bool)
      ensures this.text == text && config == Resolve(options)
      ensures Snapshot() == Mount(config, initial, hasElement)
      ensures Valid()
    {
      this.text := text;
      config := Resolve(options);
      display := initial;
      index := 0;
      timer := if hasElement then Scheduled(StartTyping, Resolve(options).startDelay) else Idle;
      started := false;
    }

    /** The pending timeout fires. */
    method Fire()
      requires Valid()
      modifies this
      ensures Snapshot() == Next(config, text, old(Snapshot()))
      ensures Valid()
    {
      InvNext(config, text, Snapshot());
      match timer {
        case Idle =>
        case Scheduled(callback, _) =>
          if callback == StartTyping {
            index := 0;
            display := config.cursor;
            started := true;
            timer := Scheduled(TypeNextChar, config.typingSpeed);
          } else {
            if callback == Restart {
              display := config.cursor;
              index := 0;
            }
            TypeNextCharStep();
          }
      }
    }

    method TypeNextCharStep()
      requires index <= |text|
      modifies this
      ensures Snapshot() == TypeNext(config, text, old(Snapshot()))
    {
      if index < |text| {
        display := text[..index + 1] + config.cursor;
        index := index + 1;
        timer := Scheduled(TypeNextChar, config.typingSpeed);
      } else if config.loop {
        timer := Scheduled(Restart, config.loopDelay);
      } else {
        display := text;
        timer := Idle;
      }
    }

    /** The effect's cleanup on unmount or when a dependency changes. */
    method Unmount()
      requires Valid()
      modifies this
      ensures Snapshot() == Cleanup(old(Snapshot()))
      ensures Valid()
    {
      timer := Idle;
    }
  }
}

/** The log viewer: a window of the newest lines of the file, and a viewport on it. */
module Viewer {
  import opened Common
  import opened LogFormat

  const MAX_LINES: nat := 4096

  datatype Key = NoKey | Quit | Up | Down | PageUp | PageDown | HomeKey | EndKey | LowerG | UpperG

  datatype Row = Text(line: string) | Blank

  /** One round of the viewer: the key that was read, what was appended to the file before the reload,
      and whether the file position was known then. */
  datatype Step = Step(key: Key, more: string, tells: bool)

  /** The rows left for lines; None is a terminal whose size is unknown. */
  function VisibleLines(rows: Option<nat>): (n: nat)
    ensures n >= 1 && (rows.Some? && rows.value > 2 ==> n + 2 == rows.value)
  {
    match rows
    case None => 20
    case Some(r) => if r <= 2 then 1 else r - 2
  }

  /** The lowest position of the viewport. */
  function Bottom(count: nat, visible: nat): nat {
    if count > visible then count - visible else 0
  }

  function Min(a: nat, b: nat): nat {
    if a <= b then a else b
  }

  function Max(a: nat, b: nat): nat {
    if a >= b then a else b
  }

  class LogViewer {
    const lines: array<string>
    var lineCount: nat
    var topLine: nat

    ghost predicate Valid() reads this {
      lines.Length == MAX_LINES && lineCount <= MAX_LINES
    }

    ghost function Lines(): seq<string>
      reads this, lines
      requires Valid()
    {
      lines[..lineCount]
    }

    ghost predicate InView(visible: nat) reads this {
      topLine <= Bottom(lineCount, visible)
    }

    constructor ()
      ensures Valid() && lineCount == 0 && topLine == 0 && fresh(lines)
    {
      lines := new string[MAX_LINES](_ => "");
      lineCount, topLine := 0, 0;
    }

    /** Strip every trailing newline and carriage return. */
    static method TrimNewline(line: string) returns (trimmed: string)
      ensures trimmed == Trim(line)
    {
      var length := |line|;
      assert line[..length] == line;
      while length > 0 && (line[length - 1] == '\n' || line[length - 1] == '\r')
        invariant 0 <= length <= |line| && Trim(line[..length]) == Trim(line)
        decreases length
      {
        assert line[..length][..length - 1] == line[..length - 1];
        length := length - 1;
      }
      trimmed := line[..length];
    }

    /** Append a line, or make room by moving all lines up by one place. */
    method Store(line: string)
      requires Valid()
      modifies this`lineCount, lines
      ensures Valid() && Lines() == LastN(old(Lines()) + [line], MAX_LINES)
    {
      ghost var before := Lines();
      if lineCount < MAX_LINES {
        lines[lineCount] := line;
        lineCount := lineCount + 1;
      } else {
        for i := 0 to MAX_LINES - 1
          invariant lineCount == MAX_LINES
          invariant forall k :: 0 <= k < i ==> lines[k] == before[k + 1]
          invariant forall k :: i <= k < MAX_LINES ==> lines[k] == before[k]
        {
          lines[i] := lines[i + 1];
        }
        lines[MAX_LINES - 1] := line;
      }
      assert Lines() == LastN(before + [line], MAX_LINES);
    }

    /** Read the whole file: the window holds its newest chunks, trimmed, in order. */
    method LoadFile(content: string)
      requires Valid()
      modifies this`lineCount, lines
      ensures Valid() && Lines() == LastN(Shown(Chunks(content)), MAX_LINES)
    {
      lineCount := 0;
      var rest := content;
      ghost var done: seq<string> := [];
      while rest != ""
        invariant Valid() && Chunks(content) == done + Chunks(rest)
        invariant Lines() == LastN(Shown(done), MAX_LINES)
        decreases |rest|
      {
        var n := Cut(rest, LINE_SIZE - 1);
        var buffer := rest[..n];
        var line := TrimNewline(CString(buffer));
        Store(line);
        ghost var done' := done + [buffer];
        assert Shown(done') == Shown(done) + [line];
        LastNAppend(Shown(done), line);
        assert done' + Chunks(rest[n..]) == done + Chunks(rest);
        done := done';
        rest := rest[n..];
      }
      assert done + Chunks("") == done;
    }

    method ScrollUp(amount: nat)
      modifies this`topLine
      ensures topLine == Max(old(topLine), amount) - amount
    {
      if topLine >= amount {
        topLine := topLine - amount;
      } else {
        topLine := 0;
      }
    }

    method ScrollDown(amount: nat, visible: nat)
      modifies this`topLine
      ensures topLine == Min(old(topLine) + amount, Bottom(lineCount, visible))
    {
      if lineCount <= visible {
        topLine := 0;
        return;
      }
      var maximum := lineCount - visible;
      if topLine + amount >= maximum {
        topLine := maximum;
      } else {
        topLine := topLine + amount;
      }
    }

    method Home()
      modifies this`topLine
      ensures topLine == 0
    {
      topLine := 0;
    }

    method End(visible: nat)
      modifies this`topLine
      ensures topLine == Bottom(lineCount, visible)
    {
      if lineCount > visible {
        topLine := lineCount - visible;
      } else {
        topLine := 0;
      }
    }

    /** Draw the body of the screen: exactly the visible rows, filled with blank ones. */
    method Draw(visible: nat) returns (body: seq<Row>)
      requires Valid()
      modifies this`topLine
      ensures topLine == if lineCount == 0 then 0 else Min(old(topLine), lineCount - 1)
      ensures visible >= 1 && old(InView(visible)) ==> topLine == old(topLine)
      ensures topLine <= lineCount
      ensures Displays(body, Lines()[topLine..Min(topLine + visible, lineCount)], visible)
      ensures body == Screen(Lines(), topLine, visible)
    {
      if lineCount == 0 {
        topLine := 0;
      } else if topLine >= lineCount {
        topLine := lineCount - 1;
      }
      var end := topLine + visible;
      if end > lineCount {
        end := lineCount;
      }
      body := [];
      var i := topLine;
      while i < end
        invariant topLine <= i <= end && |body| == i - topLine
        invariant forall k :: 0 <= k < |body| ==> body[k] == Text(Lines()[topLine + k])
      {
        body := body + [Text(lines[i])];
        i := i + 1;
      }
      while i < topLine + visible
        invariant end <= i <= topLine + visible && |body| == i - topLine
        invariant forall k :: 0 <= k < |body| ==>
                    body[k] == if topLine + k < lineCount then Text(Lines()[topLine + k]) else Blank
      {
        body := body + [Blank];
        i := i + 1;
      }
    }

    /** Read and process one key; the two letter keys act while they are read. */
    method ProcessKey(key: Key, visible: nat) returns (quit: bool)
      requires Valid() && visible >= 1
      modifies this`topLine
      ensures quit <==> key == Quit
      ensures topLine == Moved(old(topLine), lineCount, visible, key)
    {
      var page := if visible > 1 then visible - 1 else 1;
      quit := false;
      match key
      case Quit => quit := true;
      case Up => ScrollUp(1);
      case Down => ScrollDown(1, visible);
      case PageUp => ScrollUp(page);
      case PageDown => ScrollDown(page, visible);
      case HomeKey => Home();
      case EndKey => End(visible);
      case LowerG => Home();
      case UpperG => End(visible);
      case NoKey =>
    }

    /** Reload the file, and follow it when the viewport is at its end, give or take a line. */
    method Reload(content: string, tells: bool, visible: nat)
      requires Valid()
      modifies this, lines
      ensures Valid() && Lines() == LastN(Shown(Chunks(content)), MAX_LINES)
      ensures topLine == Reloaded(old(topLine), lineCount, tells, visible)
    {
      LoadFile(content);
      if tells {
        if lineCount > visible && topLine + visible >= lineCount - 1 {
          End(visible);
        }
      }
    }

    /** One round of the main loop that does not quit. */
    method Round(step: Step, text: string, visible: nat, screens: seq<seq<Row>>) returns (screens': seq<seq<Row>>)
      requires Valid() && visible >= 1 && InView(visible) && Lines() == Window(text) && step.key != Quit
      modifies this, lines
      ensures Valid() && InView(visible) && Lines() == Window(text + step.more)
      ensures Play(topLine, text + step.more, screens') == PlayRound(Play(old(topLine), text, screens), step, visible)
    {
      screens' := screens;
      MovedStaysInView(topLine, lineCount, visible, step.key);
      var _ := ProcessKey(step.key, visible);
      if step.key != NoKey {
        var body := Draw(visible);
        screens' := screens' + [body];
      }
      ChunksGrow(text, step.more);
      FollowedStaysInView(topLine, lineCount, |Window(text + step.more)|, visible);
      Reload(text + step.more, step.tells, visible);
      var body := Draw(visible);
      screens' := screens' + [body];
    }

    /** The viewer is where the reference session is after this script. */
    ghost predicate Shows(content: string, script: seq<Step>, visible: nat, text: string, screens: seq<seq<Row>>)
      reads this, lines
    {
      && Valid() && InView(visible) && Lines() == Window(text)
      && Play(topLine, text, screens) == Played(content, script, visible)
    }

    /** The whole session in a window of fixed size, for any keys and any appending writer, up to
        the first quit: the screens are exactly those of the reference session. */
    method Session(content: string, script: seq<Step>, rows: Option<nat>)
      returns (screens: seq<seq<Row>>, ghost rounds: nat)
      requires Valid()
      modifies this, lines
      ensures Valid() && InView(VisibleLines(rows)) && QuitsAfter(script, rounds)
      ensures var play := Played(content, script[..rounds], VisibleLines(rows));
              topLine == play.top && screens == play.screens && Lines() == Window(play.text)
    {
      var visible := VisibleLines(rows);
      screens := Open(content, visible);
      assert script[..0] == [];
      var text := content;
      for i := 0 to |script|
        invariant Shows(content, script[..i], visible, text, screens)
        invariant forall k :: 0 <= k < i ==> script[k].key != Quit
      {
        if script[i].key == Quit {
          var quit := ProcessKey(script[i].key, visible);
          rounds := i;
          return;
        }
        text, screens := Advance(content, script, i, text, visible, screens);
      }
      rounds := |script|;
    }

    method Advance(ghost content: string, script: seq<Step>, i: nat,
                   text: string, visible: nat, screens: seq<seq<Row>>)
      returns (text': string, screens': seq<seq<Row>>)
      requires visible >= 1 && i < |script| && script[i].key != Quit
      requires Shows(content, script[..i], visible, text, screens)
      modifies this, lines
      ensures Shows(content, script[..i + 1], visible, text', screens')
    {
      PlayedStep(content, script, i, visible);
      screens' := Round(script[i], text, visible, screens);
      text' := text + script[i].more;
    }

    /** The start: load, go to the end, draw. */
    method Open(content: string, visible: nat) returns (screens: seq<seq<Row>>)
      requires Valid() && visible >= 1
      modifies this, lines
      ensures Shows(content, [], visible, content, screens)
    {
      LoadFile(content);
      End(visible);
      var body := Draw(visible);
      screens := [body];
    }
  }

  /** The rounds before the first quit. */
  predicate QuitsAfter(script: seq<Step>, rounds: nat) {
    && rounds <= |script| && (rounds < |script| ==> script[rounds].key == Quit)
    && forall k :: 0 <= k < rounds ==> script[k].key != Quit
  }

  // ---- The session as a function ----

  datatype Play = Play(top: nat, text: string, screens: seq<seq<Row>>)

  /** The lines the viewer knows of a file. */
  function Window(text: string): seq<string> {
    LastN(Shown(Chunks(text)), MAX_LINES)
  }

  /** A screen of so many rows shows exactly these lines: from its top on, in their order, and blank rows
      below. */
  ghost predicate Displays(screen: seq<Row>, shown: seq<string>, visible: nat) {
    && |screen| == visible && |shown| <= visible
    && (forall k :: 0 <= k < |shown| ==> screen[k] == Text(shown[k]))
    && (forall k :: |shown| <= k < visible ==> screen[k] == Blank)
  }

  function Screen(lines: seq<string>, top: nat, visible: nat): seq<Row> {
    seq(visible, i requires 0 <= i < visible => if top + i < |lines| then Text(lines[top + i]) else Blank)
  }

  function Played(content: string, script: seq<Step>, visible: nat): Play {
    var count := |Window(content)|;
    if script == [] then
      Play(Bottom(count, visible), content, [Screen(Window(content), Bottom(count, visible), visible)])
    else
      PlayRound(Played(content, script[..|script| - 1], visible), script[|script| - 1], visible)
  }

  /** One round: the key, its redraw, the reload, and the redraw after it. */
  function PlayRound(play: Play, step: Step, visible: nat): Play {
    var top := Moved(play.top, |Window(play.text)|, visible, step.key);
    var screens := if step.key == NoKey then play.screens
                   else play.screens + [Screen(Window(play.text), top, visible)];
    var text := play.text + step.more;
    var top' := Reloaded(top, |Window(text)|, step.tells, visible);
    Play(top', text, screens + [Screen(Window(text), top', visible)])
  }

  lemma PlayedStep(content: string, script: seq<Step>, i: nat, visible: nat)
    requires i < |script|
    ensures Played(content, script[..i + 1], visible)
         == PlayRound(Played(content, script[..i], visible), script[i], visible)
  {
    assert script[..i + 1][..i] == script[..i];
  }

  /** In every session the viewport stays in view and every screen has its size. */
  lemma {:induction false} PlayedInView(content: string, script: seq<Step>, visible: nat)
    ensures var play := Played(content, script, visible);
            && play.top <= Bottom(|Window(play.text)|, visible)
            && forall s :: 0 <= s < |play.screens| ==> |play.screens[s]| == visible
  {
    if script != [] {
      var before := script[..|script| - 1];
      PlayedInView(content, before, visible);
      var play, step := Played(content, before, visible), script[|script| - 1];
      MovedStaysInView(play.top, |Window(play.text)|, visible, step.key);
      ChunksGrow(play.text, step.more);
      var top := Moved(play.top, |Window(play.text)|, visible, step.key);
      FollowedStaysInView(top, |Window(play.text)|, |Window(play.text + step.more)|, visible);
    }
  }

  // ---- What the screens show ----

  function LastScreen(play: Play): seq<Row>
    requires play.screens != []
  {
    play.screens[|play.screens| - 1]
  }

  lemma ScreenDisplays(lines: seq<string>, top: nat, visible: nat)
    requires top <= |lines|
    ensures Displays(Screen(lines, top, visible), lines[top..Min(top + visible, |lines|)], visible)
  {
  }

  lemma BlankFrom(screen: seq<Row>, shown: seq<string>, visible: nat, k: nat)
    requires Displays(screen, shown, visible) && k < visible
    ensures screen[k].Blank? <==> |shown| <= k
  {
  }

  /** A screen shows one text only. */
  lemma ShownIsOne(screen: seq<Row>, a: seq<string>, b: seq<string>, visible: nat)
    requires Displays(screen, a, visible)
    ensures Displays(screen, b, visible) <==> a == b
  {
    if Displays(screen, b, visible) {
      if |a| < visible { BlankFrom(screen, a, visible, |a|); BlankFrom(screen, b, visible, |a|); }
      if |b| < visible { BlankFrom(screen, a, visible, |b|); BlankFrom(screen, b, visible, |b|); }
      forall k | 0 <= k < |a| ensures a[k] == b[k] {
        assert screen[k] == Text(a[k]) == Text(b[k]);
      }
    }
  }

  function KeysIn(script: seq<Step>): nat {
    if script == [] then 0
    else KeysIn(script[..|script| - 1]) + if script[|script| - 1].key == NoKey then 0 else 1
  }

  lemma {:induction false} ScreensAreCounted(content: string, script: seq<Step>, visible: nat)
    ensures |Played(content, script, visible).screens| == 1 + |script| + KeysIn(script)
  {
    if script != [] {
      ScreensAreCounted(content, script[..|script| - 1], visible);
    }
  }

  /** Every session draws once at its start, once in each round, and once more for each key; and the last
      screen shows the window of the file as it is by then, from the viewport on. */
  lemma ScreensAreDrawn(content: string, script: seq<Step>, visible: nat)
    ensures var play := Played(content, script, visible);
            var lines := Window(play.text);
            && |play.screens| == 1 + |script| + KeysIn(script) && play.top <= |lines|
            && Displays(LastScreen(play), lines[play.top..Min(play.top + visible, |lines|)], visible)
  {
    PlayedInView(content, script, visible);
    ScreensAreCounted(content, script, visible);
    LastScreenIs(content, script, visible);
    var play := Played(content, script, visible);
    ScreenDisplays(Window(play.text), play.top, visible);
  }

  lemma LastNOfLastN(lines: seq<string>, m: nat, n: nat)
    ensures LastN(LastN(lines, m), n) == LastN(lines, Min(n, m))
  {
  }

  lemma BottomDisplays(lines: seq<string>, visible: nat)
    ensures Displays(Screen(lines, Bottom(|lines|, visible), visible), LastN(lines, visible), visible)
  {
    var top := Bottom(|lines|, visible);
    ScreenDisplays(lines, top, visible);
    assert lines[top..Min(top + visible, |lines|)] == LastN(lines, visible);
  }

  lemma TopDisplays(lines: seq<string>, visible: nat)
    ensures Displays(Screen(lines, 0, visible), lines[..Min(visible, |lines|)], visible)
  {
    ScreenDisplays(lines, 0, visible);
    assert lines[0..Min(visible, |lines|)] == lines[..Min(visible, |lines|)];
  }

  lemma LastScreenIs(content: string, script: seq<Step>, visible: nat)
    ensures var play := Played(content, script, visible);
            play.screens != [] && LastScreen(play) == Screen(Window(play.text), play.top, visible)
  {
  }

  /** At the bottom the screen shows the newest records that were written, the oldest of them in its
      first row, if and only if each of these fits the line buffer. */
  lemma NewestAreShown(content: string, script: seq<Step>, visible: nat, records: seq<string>)
    requires AtBottom(content, script, visible) && Played(content, script, visible).text == File(records)
    requires forall i :: 0 <= i < |records| ==> Plain(records[i])
    ensures var newest := LastN(records, Min(visible, MAX_LINES));
            Displays(LastScreen(Played(content, script, visible)), newest, visible) <==> Fits(newest)
  {
    var n, screen, chunks := Min(visible, MAX_LINES), LastScreen(Played(content, script, visible)),
                             Shown(Chunks(File(records)));
    LastScreenIs(content, script, visible);
    BottomDisplays(LastN(chunks, MAX_LINES), visible);
    LastNOfLastN(chunks, MAX_LINES, visible);
    NewestOr(screen, chunks, records, n, visible);
  }

  lemma NewestOr(screen: seq<Row>, chunks: seq<string>, records: seq<string>, n: nat, visible: nat)
    requires chunks == Shown(Chunks(File(records))) && Displays(screen, LastN(chunks, n), visible)
    requires forall i :: 0 <= i < |records| ==> Plain(records[i])
    ensures Displays(screen, LastN(records, n), visible) <==> Fits(LastN(records, n))
  {
    ViewAgrees(records, n);
    ShownIsOne(screen, LastN(chunks, n), LastN(records, n), visible);
  }

  /** The session before its last round. */
  function Before(content: string, script: seq<Step>, visible: nat): Play
    requires script != []
  {
    Played(content, script[..|script| - 1], visible)
  }

  predicate Pressed(script: seq<Step>, keys: set<Key>) {
    script != [] && script[|script| - 1].key in keys && script[|script| - 1].key != NoKey
  }

  /** What is drawn for the key of the last round. */
  function KeyScreen(content: string, script: seq<Step>, visible: nat): seq<Row>
    requires script != [] && script[|script| - 1].key != NoKey
  {
    Played(content, script, visible).screens[|Before(content, script, visible).screens|]
  }

  lemma KeyDraws(content: string, script: seq<Step>, visible: nat)
    requires script != [] && script[|script| - 1].key != NoKey
    ensures var before := Before(content, script, visible);
            var lines := Window(before.text);
            && before.screens != [] && LastScreen(before) == Screen(lines, before.top, visible)
            && before.top <= Bottom(|lines|, visible)
            && KeyScreen(content, script, visible)
               == Screen(lines, Moved(before.top, |lines|, visible, script[|script| - 1].key), visible)
  {
    PlayedInView(content, script[..|script| - 1], visible);
  }

  lemma HomeScreen(lines: seq<string>, top: nat, visible: nat, key: Key)
    requires key == HomeKey || key == LowerG
    ensures Displays(Screen(lines, Moved(top, |lines|, visible, key), visible), lines[..Min(visible, |lines|)], visible)
  {
    TopDisplays(lines, visible);
  }

  lemma EndScreen(lines: seq<string>, top: nat, visible: nat, key: Key)
    requires key == EndKey || key == UpperG
    ensures Displays(Screen(lines, Moved(top, |lines|, visible, key), visible), LastN(lines, visible), visible)
  {
    BottomDisplays(lines, visible);
  }

  /** Home shows the oldest lines of the window, from its first one on. */
  lemma HomeShowsTheOldest(content: string, script: seq<Step>, visible: nat)
    requires Pressed(script, {HomeKey, LowerG})
    ensures var lines := Window(Before(content, script, visible).text);
            Displays(KeyScreen(content, script, visible), lines[..Min(visible, |lines|)], visible)
  {
    KeyDraws(content, script, visible);
    var before := Before(content, script, visible);
    HomeScreen(Window(before.text), before.top, visible, script[|script| - 1].key);
  }

  /** End shows the newest ones, up to the last. */
  lemma EndShowsTheNewest(content: string, script: seq<Step>, visible: nat)
    requires Pressed(script, {EndKey, UpperG})
    ensures var lines := Window(Before(content, script, visible).text);
            Displays(KeyScreen(content, script, visible), LastN(lines, visible), visible)
  {
    KeyDraws(content, script, visible);
    var before := Before(content, script, visible);
    EndScreen(Window(before.text), before.top, visible, script[|script| - 1].key);
  }

  lemma ScreenAbove(lines: seq<string>, top: nat, visible: nat)
    requires 0 < top <= Bottom(|lines|, visible) && visible >= 1
    ensures Screen(lines, top - 1, visible) == [Text(lines[top - 1])] + Screen(lines, top, visible)[..visible - 1]
  {
  }

  lemma ScreenBelow(lines: seq<string>, top: nat, visible: nat)
    requires top < Bottom(|lines|, visible) && visible >= 1
    ensures Screen(lines, top + 1, visible) == Screen(lines, top, visible)[1..] + [Text(lines[top + visible])]
  {
  }

  /** Up moves the screen down by one row and shows the line above in its first row; with the oldest line
      there already, nothing changes. */
  lemma UpShowsTheLineAbove(content: string, script: seq<Step>, visible: nat)
    requires visible >= 1 && Pressed(script, {Up})
    ensures var before := Before(content, script, visible);
            var was, drawn := LastScreen(before), KeyScreen(content, script, visible);
            before.top <= Bottom(|Window(before.text)|, visible) &&
            if before.top == 0 then drawn == was
            else drawn == [Text(Window(before.text)[before.top - 1])] + was[..visible - 1]
  {
    KeyDraws(content, script, visible);
    var before := Before(content, script, visible);
    if before.top > 0 { ScreenAbove(Window(before.text), before.top, visible); }
  }

  /** Down moves it up by one row and shows the line below in its last row; at the bottom nothing changes. */
  lemma DownShowsTheLineBelow(content: string, script: seq<Step>, visible: nat)
    requires visible >= 1 && Pressed(script, {Down})
    ensures var before := Before(content, script, visible);
            var was, drawn := LastScreen(before), KeyScreen(content, script, visible);
            before.top <= Bottom(|Window(before.text)|, visible) &&
            if before.top == Bottom(|Window(before.text)|, visible) then drawn == was
            else drawn == was[1..] + [Text(Window(before.text)[before.top + visible])]
  {
    KeyDraws(content, script, visible);
    var before := Before(content, script, visible);
    if before.top < Bottom(|Window(before.text)|, visible) { ScreenBelow(Window(before.text), before.top, visible); }
  }

  /** A page overlaps the one before it by one row, unless the newest lines come first. */
  lemma PageDownOverlaps(content: string, script: seq<Step>, visible: nat)
    requires visible >= 2 && Pressed(script, {PageDown})
    ensures var before := Before(content, script, visible);
            var lines, was, drawn := Window(before.text), LastScreen(before), KeyScreen(content, script, visible);
            if before.top + visible - 1 <= Bottom(|lines|, visible) then drawn[0] == was[visible - 1]
            else Displays(drawn, LastN(lines, visible), visible)
  {
    KeyDraws(content, script, visible);
    var before := Before(content, script, visible);
    PageDownScreen(Window(before.text), before.top, visible);
  }

  lemma PageDownScreen(lines: seq<string>, top: nat, visible: nat)
    requires visible >= 2 && top <= Bottom(|lines|, visible)
    ensures var was := Screen(lines, top, visible);
            var drawn := Screen(lines, Moved(top, |lines|, visible, PageDown), visible);
            if top + visible - 1 <= Bottom(|lines|, visible) then drawn[0] == was[visible - 1]
            else Displays(drawn, LastN(lines, visible), visible)
  {
    BottomDisplays(lines, visible);
  }

  /** And in the other direction, unless the oldest lines come first. */
  lemma PageUpOverlaps(content: string, script: seq<Step>, visible: nat)
    requires visible >= 2 && Pressed(script, {PageUp})
    ensures var before := Before(content, script, visible);
            var lines, was, drawn := Window(before.text), LastScreen(before), KeyScreen(content, script, visible);
            if before.top >= visible - 1 then drawn[visible - 1] == was[0]
            else Displays(drawn, lines[..Min(visible, |lines|)], visible)
  {
    KeyDraws(content, script, visible);
    var before := Before(content, script, visible);
    PageUpScreen(Window(before.text), before.top, visible);
  }

  lemma PageUpScreen(lines: seq<string>, top: nat, visible: nat)
    requires visible >= 2 && top <= Bottom(|lines|, visible)
    ensures var was := Screen(lines, top, visible);
            var drawn := Screen(lines, Moved(top, |lines|, visible, PageUp), visible);
            if top >= visible - 1 then drawn[visible - 1] == was[0]
            else Displays(drawn, lines[..Min(visible, |lines|)], visible)
  {
    TopDisplays(lines, visible);
  }

  lemma LastNAppend(s: seq<string>, line: string)
    ensures LastN(LastN(s, MAX_LINES) + [line], MAX_LINES) == LastN(s + [line], MAX_LINES)
  {
  }

  // ---- The viewport ----

  function Moved(top: nat, count: nat, visible: nat, key: Key): nat {
    var page := if visible > 1 then visible - 1 else 1;
    match key
    case Up => Max(top, 1) - 1
    case Down => Min(top + 1, Bottom(count, visible))
    case PageUp => Max(top, page) - page
    case PageDown => Min(top + page, Bottom(count, visible))
    case HomeKey => 0
    case LowerG => 0
    case EndKey => Bottom(count, visible)
    case UpperG => Bottom(count, visible)
    case _ => top
  }

  function Followed(top: nat, count: nat, visible: nat): nat {
    if count > visible && top + visible >= count - 1 then Bottom(count, visible) else top
  }

  /** Where a reload leaves the viewport; without a file position it stays. */
  function Reloaded(top: nat, count: nat, tells: bool, visible: nat): nat {
    if tells then Followed(top, count, visible) else top
  }

  lemma MovedStaysInView(top: nat, count: nat, visible: nat, key: Key)
    requires top <= Bottom(count, visible)
    ensures Moved(top, count, visible, key) <= Bottom(count, visible)
  {
  }

  lemma FollowedStaysInView(top: nat, count: nat, count': nat, visible: nat)
    requires top <= Bottom(count, visible) && count <= count'
    ensures Followed(top, count', visible) <= Bottom(count', visible)
  {
  }

  // ---- Following ----

  /** Nobody presses a key, or only to go up a line. */
  predicate Upward(script: seq<Step>) {
    forall i :: 0 <= i < |script| ==> script[i].key in {NoKey, Up} && script[i].tells
  }

  function Count(content: string, script: seq<Step>, visible: nat): nat {
    |Window(Played(content, script, visible).text)|
  }

  predicate AtBottom(content: string, script: seq<Step>, visible: nat) {
    Played(content, script, visible).top == Bottom(Count(content, script, visible), visible)
  }

  /** How many lines a round may leave so that a viewport at the bottom of count lines follows: one
      beyond what the screen or the window had, but no new one after a step up. */
  function Room(key: Key, count: nat, visible: nat): nat {
    if key == Up && count > visible then count else Max(count, visible) + 1
  }

  /** None of the rounds after the first n brings more lines than that. */
  ghost predicate Gradual(content: string, script: seq<Step>, n: nat, visible: nat) {
    forall i :: n <= i < |script| ==>
      Count(content, script[..i + 1], visible) <= Room(script[i].key, Count(content, script[..i], visible), visible)
  }

  lemma CountStep(content: string, script: seq<Step>, visible: nat)
    requires script != []
    ensures Count(content, script[..|script| - 1], visible) <= Count(content, script, visible) <= MAX_LINES
  {
    var play := Played(content, script[..|script| - 1], visible);
    ChunksGrow(play.text, script[|script| - 1].more);
  }

  lemma GradualStep(content: string, script: seq<Step>, n: nat, visible: nat)
    requires n < |script|
    ensures var before, last := script[..|script| - 1], script[|script| - 1];
            Gradual(content, script, n, visible) <==>
              && Gradual(content, before, n, visible)
              && Count(content, script, visible) <= Room(last.key, Count(content, before, visible), visible)
  {
    var before := script[..|script| - 1];
    assert script[..|script|] == script;
    assert forall i :: 0 <= i <= |before| ==> before[..i] == script[..i];
    assert forall i :: 0 <= i < |before| ==> before[i] == script[i];
  }

  lemma FollowStep(top: nat, count: nat, count': nat, key: Key, visible: nat)
    requires top <= Bottom(count, visible) && count <= count' && key in {NoKey, Up}
    ensures var top' := Followed(Moved(top, count, visible, key), count', visible);
            && (top == Bottom(count, visible) && count' <= Room(key, count, visible) ==>
                  top' == Bottom(count', visible))
            && (top + 1 < Bottom(count, visible)
                || (top == Bottom(count, visible) && count' > Room(key, count, visible)) ==>
                  top' + 1 < Bottom(count', visible))
  {
  }

  /** A viewer at the bottom after n rounds of any session, at which from then on nobody presses a key but
      Up, is at the bottom in the end if and only if every round was gradual: once two lines
      behind, it never catches up, and until then every step up is undone. */
  lemma {:induction false} FollowsIffGradual(content: string, script: seq<Step>, n: nat, visible: nat)
    requires n <= |script| && AtBottom(content, script[..n], visible) && Upward(script[n..])
    ensures AtBottom(content, script, visible) <==> Gradual(content, script, n, visible)
    ensures !Gradual(content, script, n, visible) ==>
              Played(content, script, visible).top + 1 < Bottom(Count(content, script, visible), visible)
    decreases |script|
  {
    if n < |script| {
      var before, last := script[..|script| - 1], script[|script| - 1];
      assert before[..n] == script[..n] && before[n..] == script[n..][..|before| - n];
      assert last == script[n..][|before| - n];
      FollowsIffGradual(content, before, n, visible);
      GradualStep(content, script, n, visible);
      CountStep(content, script, visible);
      PlayedInView(content, before, visible);
      FollowStep(Played(content, before, visible).top, Count(content, before, visible),
                 Count(content, script, visible), last.key, visible);
    } else {
      assert script[..n] == script;
    }
  }

  /** One step up from the bottom is undone at once, unless the same round brings a new line. */
  lemma UpIsUndoneIff(content: string, script: seq<Step>, visible: nat)
    requires script != [] && script[|script| - 1].key == Up && script[|script| - 1].tells
    requires var before := script[..|script| - 1];
             AtBottom(content, before, visible) && Count(content, before, visible) > visible
    ensures AtBottom(content, script, visible) <==>
              Count(content, script, visible) == Count(content, script[..|script| - 1], visible)
  {
    var n := |script| - 1;
    FollowsIffGradual(content, script, n, visible);
    GradualStep(content, script, n, visible);
    CountStep(content, script, visible);
  }

  /** The file appears two lines at a time. */
  function FastLog(): seq<Step> {
    [Step(NoKey, "c\nd\n", true)]
  }

  lemma FileOfOneMore(records: seq<string>, record: string)
    ensures File(records + [record]) == File(records) + record + "\n"
  {
    assert (records + [record])[..|records|] == records;
  }

  lemma FastLogText()
    ensures |Window("a\nb\n")| == 2 && |Window("a\nb\nc\nd\n")| == 4
  {
    var one, two, three, four := ["a"], ["a", "b"], ["a", "b", "c"], ["a", "b", "c", "d"];
    assert one == [] + ["a"] && two == one + ["b"] && three == two + ["c"] && four == three + ["d"];
    FileOfOneMore([], "a");
    FileOfOneMore(one, "b");
    FileOfOneMore(two, "c");
    FileOfOneMore(three, "d");
    assert File(two) == "a\nb\n";
    assert File(four) == "a\nb\nc\nd\n";
    WindowAgrees(two);
    WindowAgrees(four);
  }

  lemma TwoLinesMore(content: string, more: string)
    requires |Window(content)| == 2 && |Window(content + more)| == 4
    ensures AtBottom(content, [], 1) && !AtBottom(content, [Step(NoKey, more, true)], 1)
  {
    var script := [Step(NoKey, more, true)];
    assert script[..0] == [] && script[..1] == script;
    PlayedStep(content, script, 0, 1);
  }

  /** Here the viewer starts at the bottom, nobody touches it, and it does not follow. */
  lemma FastLogIsNotFollowed()
    ensures AtBottom("a\nb\n", FastLog()[..0], 1) && Upward(FastLog()[0..])
    ensures !AtBottom("a\nb\n", FastLog(), 1)
  {
    FastLogText();
    assert "a\nb\n" + "c\nd\n" == "a\nb\nc\nd\n";
    TwoLinesMore("a\nb\n", "c\nd\n");
  }

  /** With the window full, a viewer at the bottom always follows, and a step up is never kept. */
  lemma FullWindowFollows(content: string, script: seq<Step>, n: nat, visible: nat)
    requires n <= |script| && AtBottom(content, script[..n], visible) && Upward(script[n..])
    requires Count(content, script[..n], visible) == MAX_LINES
    ensures AtBottom(content, script, visible)
  {
    forall i | n <= i < |script|
      ensures Count(content, script[..i + 1], visible)
           <= Room(script[i].key, Count(content, script[..i], visible), visible)
    {
      StaysFull(content, script, n, i, visible);
      StaysFull(content, script, n, i + 1, visible);
    }
    FollowsIffGradual(content, script, n, visible);
  }

  lemma {:induction false} StaysFull(content: string, script: seq<Step>, n: nat, i: nat, visible: nat)
    requires n <= i <= |script| && Count(content, script[..n], visible) == MAX_LINES
    ensures Count(content, script[..i], visible) == MAX_LINES
    decreases i
  {
    if n < i {
      StaysFull(content, script, n, i - 1, visible);
      CountStep(content, script[..i], visible);
      assert script[..i][..i - 1] == script[..i - 1];
    }
  }

  /** A round without a key and without new lines moves the viewport if and only if it was one line
      above the bottom. */
  lemma ReloadMovesIff(content: string, script: seq<Step>, visible: nat)
    requires script != [] && script[|script| - 1] == Step(NoKey, "", true)
    ensures var play := Played(content, script[..|script| - 1], visible);
            Played(content, script, visible).top != play.top <==> play.top + 1 == Bottom(|Window(play.text)|, visible)
  {
    var before := script[..|script| - 1];
    PlayedInView(content, before, visible);
    var play := Played(content, before, visible);
    assert play.text + "" == play.text;
  }

  // ---- What is written is what is viewed ----

  /** Write/view agreement: the window shows the newest 4096 records of the file, or all of them if
      they are fewer, if and only if each of these is shorter than the line buffer. */
  lemma WindowAgrees(records: seq<string>)
    requires forall i :: 0 <= i < |records| ==> Plain(records[i])
    ensures Window(File(records)) == LastN(records, MAX_LINES) <==> Fits(LastN(records, MAX_LINES))
  {
    ViewAgrees(records, MAX_LINES);
  }

  /** The same for any number of successful log writes whose fields have no newline and no NUL. */
  lemma WrittenIsViewed(calls: seq<Call>)
    requires forall i :: 0 <= i < |calls| ==> Clean(calls[i].component) && Clean(calls[i].message)
    ensures Window(File(RecordsOf(calls))) == LastN(RecordsOf(calls), MAX_LINES)
            <==> Fits(LastN(RecordsOf(calls), MAX_LINES))
  {
    CallsArePlain(calls);
    WindowAgrees(RecordsOf(calls));
  }

  /** Every log of dated writes with at most 479 characters of component and message is viewed as it was
      written. */
  lemma ShortWritesAreViewed(calls: seq<Call>)
    requires forall i :: 0 <= i < |calls| ==>
               && Clean(calls[i].component) && Clean(calls[i].message) && Dated(calls[i].stamp)
               && |calls[i].component| + |calls[i].message| <= 479
    ensures Window(File(RecordsOf(calls))) == LastN(RecordsOf(calls), MAX_LINES)
  {
    var records := RecordsOf(calls);
    forall i | 0 <= i < |calls| ensures FitsBuffer(records[i]) {
      RecordFitsIff(calls[i].stamp, calls[i].component, calls[i].message, calls[i].level);
    }
    WrittenIsViewed(calls);
  }

  /** A single record that is too long spoils the view until 4096 others have followed it. */
  lemma OneLongRecord(long: string, tail: seq<string>)
    requires Plain(long) && !FitsBuffer(long)
    requires Fits(tail) && forall i :: 0 <= i < |tail| ==> Plain(tail[i])
    ensures Window(File([long] + tail)) == LastN([long] + tail, MAX_LINES) <==> |tail| >= MAX_LINES
  {
    var records := [long] + tail;
    assert forall i :: 0 < i < |records| ==> records[i] == tail[i - 1];
    WindowAgrees(records);
    if |tail| < MAX_LINES {
      assert LastN(records, MAX_LINES)[0] == long;
    }
  }
}

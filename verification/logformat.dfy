/** The log file: how records are printed, and how the viewer cuts a file into lines. */
module LogFormat {
  import opened Common

  const LINE_SIZE: nat := 512

  datatype Stamp = Stamp(month: nat, day: nat, year: nat, hour: nat, minute: nat)

  function LevelName(level: int): string {
    match level
    case 0 => "LOG"
    case 1 => "WARN"
    case 2 => "CRITICAL"
    case 3 => "FATAL"
    case _ => "UNKNOWN"
  }

  function Padded(n: nat, width: nat): string {
    var digits := Digits(n);
    (if |digits| < width then seq(width - |digits|, _ => '0') else "") + digits
  }

  function DateText(t: Stamp): string {
    "[" + Padded(t.month, 2) + "/" + Padded(t.day, 2) + "/" + Padded(t.year, 4) + "] "
  }

  function TimeText(t: Stamp): string {
    "[" + Padded(t.hour, 2) + ":" + Padded(t.minute, 2) + "] "
  }

  function StampText(t: Stamp): string {
    DateText(t) + TimeText(t)
  }

  /** One record without its newline. */
  function Record(t: Stamp, component: string, message: string, level: int): string {
    StampText(t) + component + " " + message + " " + LevelName(level)
  }

  /** The writer's side: one open file to which records are appended. */
  class LogWriter {
    var open: bool
    var content: string

    constructor (content: string)
      ensures !open && this.content == content
    {
      open := false;
      this.content := content;
    }

    method Init(opens: bool) returns (ok: bool)
      modifies this
      ensures ok <==> old(open) || opens
      ensures open == ok && content == old(content)
    {
      if open {
        return true;
      }
      open := opens;
      return opens;
    }

    /** Absent strings and an unreadable clock are refused before anything is written. A print that
        fails may have left any part of the line, up to the given length, behind. */
    method Write(component: Option<string>, message: Option<string>, level: int, clock: Option<Stamp>,
                 failsAfter: Option<nat>)
      returns (ok: bool)
      modifies this`content
      ensures ok <==> open && component.Some? && message.Some? && clock.Some? && failsAfter.None?
      ensures content == old(content) +
                         if open && component.Some? && message.Some? && clock.Some?
                         then Printed(File([Record(clock.value, component.value, message.value, level)]), failsAfter)
                         else ""
    {
      if !open {
        return false;
      }
      if component.None? || message.None? {
        return false;
      }
      if clock.None? {
        return false;
      }
      var record := Record(clock.value, component.value, message.value, level);
      FileGrows(content, record);
      if failsAfter.Some? {
        content := content + Printed(record + "\n", failsAfter);
        return false;
      }
      content := content + record + "\n";
      return true;
    }

    method Close()
      modifies this`open
      ensures !open
    {
      open := false;
    }
  }

  /** What reaches the file of a line whose printing may fail. */
  function Printed(line: string, failsAfter: Option<nat>): (text: string)
    ensures text <= line && (text == line || failsAfter.Some?)
  {
    if failsAfter.Some? && failsAfter.value < |line| then line[..failsAfter.value] else line
  }

  /** The file that consists of these records. */
  function File(records: seq<string>): string {
    if records == [] then "" else File(records[..|records| - 1]) + records[|records| - 1] + "\n"
  }

  lemma FileGrows(content: string, record: string)
    ensures content + record + "\n" == content + File([record]) && File([record]) == record + "\n"
  {
    assert File([]) == "" && [record][..0] == [];
  }

  // ---- Reading ----

  /** How much fgets takes: up to and with the first newline, but never more than there is room. */
  function Cut(s: string, room: nat): (n: nat)
    ensures n <= |s| && n <= room
    ensures s != "" && room > 0 ==> n > 0
  {
    if s == "" || room == 0 then 0
    else if s[0] == '\n' then 1
    else 1 + Cut(s[1..], room - 1)
  }

  /** The successive results of fgets with a buffer of LINE_SIZE. */
  function Chunks(s: string): seq<string>
    decreases |s|
  {
    if s == "" then []
    else var n := Cut(s, LINE_SIZE - 1); [s[..n]] + Chunks(s[n..])
  }

  function Trim(s: string): string {
    if s != "" && (s[|s| - 1] == '\n' || s[|s| - 1] == '\r') then Trim(s[..|s| - 1]) else s
  }

  predicate LineEnd(s: string) {
    forall i :: 0 <= i < |s| ==> s[i] == '\n' || s[i] == '\r'
  }

  /** Only newlines and carriage returns go, and all of them. */
  lemma {:induction false} TrimIs(s: string) returns (tail: string)
    ensures s == Trim(s) + tail && LineEnd(tail)
    ensures var t := Trim(s); t != "" ==> t[|t| - 1] != '\n' && t[|t| - 1] != '\r'
  {
    tail := "";
    if s != "" && (s[|s| - 1] == '\n' || s[|s| - 1] == '\r') {
      var t := TrimIs(s[..|s| - 1]);
      tail := t + [s[|s| - 1]];
      assert s == s[..|s| - 1] + [s[|s| - 1]] && Trim(s) + t + [s[|s| - 1]] == Trim(s) + tail;
    }
  }

  function Joined(chunks: seq<string>): string {
    if chunks == [] then "" else chunks[0] + Joined(chunks[1..])
  }

  /** A chunk has at most 511 characters and a newline nowhere but at its end. */
  predicate IsChunk(c: string) {
    0 < |c| < 512 && '\n' !in c[..|c| - 1]
  }

  predicate IsCut(c: string) {
    |c| == 511 || Ended(c)
  }

  lemma {:induction false} CutIs(s: string, room: nat)
    ensures var n := Cut(s, room);
            && (n > 0 ==> '\n' !in s[..n - 1])
            && (n < |s| ==> n == room || (n > 0 && s[n - 1] == '\n'))
  {
    if s != "" && room > 0 && s[0] != '\n' {
      CutIs(s[1..], room - 1);
      var n := Cut(s, room);
      assert s[..n - 1] == if n > 1 then [s[0]] + s[1..][..n - 2] else "";
    }
  }

  lemma FirstChunkIs(s: string)
    requires s != ""
    ensures var n := Cut(s, LINE_SIZE - 1); IsChunk(s[..n]) && (n < |s| ==> IsCut(s[..n]))
  {
    var n := Cut(s, LINE_SIZE - 1);
    CutIs(s, LINE_SIZE - 1);
    assert s[..n][..n - 1] == s[..n - 1];
  }

  /** Each of them is a chunk, and every one but the last is cut for a reason. */
  ghost predicate AreChunks(chunks: seq<string>) {
    && (forall i :: 0 <= i < |chunks| ==> IsChunk(chunks[i]))
    && (forall i :: 0 <= i < |chunks| - 1 ==> IsCut(chunks[i]))
  }

  lemma ChunkBefore(chunk: string, chunks: seq<string>)
    requires IsChunk(chunk) && AreChunks(chunks) && (chunks != [] ==> IsCut(chunk))
    ensures AreChunks([chunk] + chunks) && Joined([chunk] + chunks) == chunk + Joined(chunks)
  {
    var all := [chunk] + chunks;
    assert all[1..] == chunks && forall i :: 0 < i < |all| ==> all[i] == chunks[i - 1];
  }

  /** The chunks are the whole file, in its order. */
  lemma {:induction false} ChunksAre(s: string)
    ensures Joined(Chunks(s)) == s && AreChunks(Chunks(s))
    decreases |s|
  {
    if s != "" {
      var n := Cut(s, LINE_SIZE - 1);
      FirstChunkIs(s);
      ChunksAre(s[n..]);
      if n == |s| { assert Chunks(s[n..]) == []; }
      ChunkBefore(s[..n], Chunks(s[n..]));
      assert s[..n] + s[n..] == s;
    }
  }

  function Shown(chunks: seq<string>): seq<string> {
    seq(|chunks|, i requires 0 <= i < |chunks| => Trim(CString(chunks[i])))
  }

  function LastN(lines: seq<string>, n: nat): seq<string> {
    if |lines| <= n then lines else lines[|lines| - n..]
  }

  // ---- Agreement of the two sides ----

  predicate Clean(s: string) {
    '\n' !in s && '\0' !in s
  }

  /** A record that is one line of text. */
  predicate Plain(r: string) {
    Clean(r) && (r != "" ==> r[|r| - 1] != '\r')
  }

  lemma {:induction false} DigitsAreClean(n: nat)
    ensures Clean(Digits(n))
  {
    if n >= 10 {
      DigitsAreClean(n / 10);
    }
  }

  lemma PaddedIsClean(n: nat, width: nat)
    ensures Clean(Padded(n, width))
  {
    DigitsAreClean(n);
  }

  lemma StampIsClean(t: Stamp)
    ensures Clean(StampText(t))
  {
    PaddedIsClean(t.month, 2);
    PaddedIsClean(t.day, 2);
    PaddedIsClean(t.year, 4);
    PaddedIsClean(t.hour, 2);
    PaddedIsClean(t.minute, 2);
    assert Clean(DateText(t));
    assert Clean(TimeText(t));
  }

  /** Records of the log are plain when their two free fields have no newline and no NUL. */
  lemma RecordIsPlain(t: Stamp, component: string, message: string, level: int)
    requires Clean(component) && Clean(message)
    ensures Plain(Record(t, component, message, level))
  {
    StampIsClean(t);
    var front, name := StampText(t) + component + " " + message + " ", LevelName(level);
    assert Clean(front);
    assert Clean(name) && name[|name| - 1] != '\r';
    assert Record(t, component, message, level) == front + name;
  }

  /** The number of chunks a line of n bytes, newline included, is cut into. */
  function Pieces(n: nat): nat {
    (n + LINE_SIZE - 2) / (LINE_SIZE - 1)
  }

  lemma {:induction false} CutLine(r: string, rest: string, room: nat)
    requires '\n' !in r
    ensures Cut(r + "\n" + rest, room) == if |r| + 1 <= room then |r| + 1 else room
  {
    var s := r + "\n" + rest;
    if r != "" && room > 0 {
      assert s[1..] == r[1..] + "\n" + rest;
      CutLine(r[1..], rest, room - 1);
    }
  }

  lemma {:induction false} ChunksOfLine(r: string, rest: string)
    requires '\n' !in r
    ensures |Chunks(r + "\n" + rest)| == Pieces(|r| + 1) + |Chunks(rest)|
    ensures |r| + 1 < LINE_SIZE ==> Chunks(r + "\n" + rest) == [r + "\n"] + Chunks(rest)
    decreases |r|
  {
    CutLine(r, rest, LINE_SIZE - 1);
    if |r| + 1 < LINE_SIZE {
      ChunksOfShortLine(r, rest);
    } else {
      var n := LINE_SIZE - 1;
      assert (r + "\n" + rest)[n..] == r[n..] + "\n" + rest;
      ChunksOfLine(r[n..], rest);
      PiecesStep(|r| + 1);
    }
  }

  lemma ChunksOfShortLine(r: string, rest: string)
    requires '\n' !in r && |r| + 1 < LINE_SIZE
    ensures Chunks(r + "\n" + rest) == [r + "\n"] + Chunks(rest)
    ensures Pieces(|r| + 1) == 1
  {
    var s := r + "\n" + rest;
    CutLine(r, rest, LINE_SIZE - 1);
    assert s[..|r| + 1] == r + "\n" && s[|r| + 1..] == rest;
  }

  lemma PiecesStep(n: nat)
    requires n >= LINE_SIZE
    ensures Pieces(n) == 1 + Pieces(n - (LINE_SIZE - 1))
  {
  }

  lemma {:induction false} CStringOfPlain(s: string)
    requires '\0' !in s
    ensures CString(s) == s
  {
    if s != "" {
      CStringOfPlain(s[1..]);
    }
  }

  lemma TrimOfPlain(r: string)
    requires Plain(r)
    ensures Trim(CString(r + "\n")) == r
  {
    CStringOfPlain(r + "\n");
    assert (r + "\n")[..|r|] == r;
  }

  predicate FitsBuffer(record: string) {
    |record| + 1 < LINE_SIZE
  }

  ghost predicate Fits(records: seq<string>) {
    forall i :: 0 <= i < |records| ==> FitsBuffer(records[i])
  }

  predicate Ended(s: string) {
    s != "" && s[|s| - 1] == '\n'
  }

  lemma {:induction false} CutOfEnded(s: string, more: string, room: nat)
    requires Ended(s)
    ensures Cut(s + more, room) == Cut(s, room)
  {
    if room > 0 && s[0] != '\n' {
      assert (s + more)[1..] == s[1..] + more;
      CutOfEnded(s[1..], more, room - 1);
    }
  }

  /** A file that ends with a whole line is cut independently of what follows. */
  lemma {:induction false} ChunksAppend(s: string, more: string)
    requires s == "" || Ended(s)
    ensures Chunks(s + more) == Chunks(s) + Chunks(more)
    decreases |s|
  {
    if s == "" {
      assert s + more == more;
    } else {
      var n := Cut(s, LINE_SIZE - 1);
      CutOfEnded(s, more, LINE_SIZE - 1);
      var t := s + more;
      assert t[..n] == s[..n] && t[n..] == s[n..] + more && Chunks(t) == [t[..n]] + Chunks(t[n..]);
      assert s[n..] == "" || Ended(s[n..]);
      ChunksAppend(s[n..], more);
      ConsAppend(s[..n], Chunks(s[n..]), Chunks(more));
    }
  }

  lemma ConsAppend(line: string, a: seq<string>, b: seq<string>)
    ensures [line] + (a + b) == ([line] + a) + b
  {
  }

  lemma {:induction false} FileIsEnded(records: seq<string>)
    ensures records == [] || Ended(File(records))
  {
  }

  lemma {:induction false} LastChunk(s: string)
    requires Ended(s)
    ensures Chunks(s) != []
    ensures var c := Chunks(s)[|Chunks(s)| - 1]; Ended(c) && |c| < LINE_SIZE
    decreases |s|
  {
    var n := Cut(s, LINE_SIZE - 1);
    if n < |s| {
      LastChunk(s[n..]);
    } else {
      assert s[..n] == s && Chunks(s[n..]) == [];
    }
  }

  lemma {:induction false} CStringIsShorter(s: string)
    ensures |CString(s)| <= |s| && (|CString(s)| == |s| ==> CString(s) == s)
  {
    if s != "" {
      CStringIsShorter(s[1..]);
    }
  }

  lemma {:induction false} TrimIsShorter(s: string)
    ensures |Trim(s)| <= |s| && (Ended(s) ==> |Trim(s)| < |s|)
  {
    if s != "" {
      TrimIsShorter(s[..|s| - 1]);
    }
  }

  /** The last thing shown of a record that does not fit is not that record. */
  lemma LongRecordIsCut(record: string)
    requires !FitsBuffer(record)
    ensures Shown(Chunks(record + "\n")) != []
    ensures var shown := Shown(Chunks(record + "\n")); shown[|shown| - 1] != record
  {
    LastChunk(record + "\n");
    var chunks := Chunks(record + "\n");
    CStringIsShorter(chunks[|chunks| - 1]);
    TrimIsShorter(CString(chunks[|chunks| - 1]));
  }

  lemma ShortRecordIsShown(record: string)
    requires FitsBuffer(record) && Plain(record)
    ensures Shown(Chunks(record + "\n")) == [record]
  {
    ChunksOfShortLine(record, "");
    assert record + "\n" + "" == record + "\n";
    TrimOfPlain(record);
  }

  lemma ShownAppends(a: seq<string>, b: seq<string>)
    ensures Shown(a + b) == Shown(a) + Shown(b)
  {
  }

  lemma ChunksOfFile(records: seq<string>)
    requires records != []
    ensures var front, last := records[..|records| - 1], records[|records| - 1];
            Shown(Chunks(File(records))) == Shown(Chunks(File(front))) + Shown(Chunks(last + "\n"))
  {
    var front, last := records[..|records| - 1], records[|records| - 1];
    FileIsEnded(front);
    ChunksAppend(File(front), last + "\n");
    assert File(records) == File(front) + (last + "\n");
    ShownAppends(Chunks(File(front)), Chunks(last + "\n"));
  }

  lemma SameLast(a: seq<string>, b: seq<string>, last: string, n: nat)
    requires n > 0
    ensures LastN(a + [last], n) == LastN(b + [last], n) <==> LastN(a, n - 1) == LastN(b, n - 1)
    ensures LastN(b + [last], n) == LastN(b, n - 1) + [last]
  {
    LastNGrows(a, last, n);
    LastNGrows(b, last, n);
    var x, y := LastN(a, n - 1), LastN(b, n - 1);
    assert x == (x + [last])[..|x|] && y == (y + [last])[..|y|];
  }

  lemma LastNGrows(lines: seq<string>, last: string, n: nat)
    requires n > 0
    ensures LastN(lines + [last], n) == LastN(lines, n - 1) + [last]
  {
  }

  lemma OtherLast(a: seq<string>, shown: seq<string>, b: seq<string>, last: string, n: nat)
    requires n > 0 && shown != [] && shown[|shown| - 1] != last
    ensures LastN(a + shown, n) != LastN(b + [last], n)
  {
    var l, r := LastN(a + shown, n), LastN(b + [last], n);
    assert l[|l| - 1] == shown[|shown| - 1] && r[|r| - 1] == last;
  }

  /** One more record that fits. */
  lemma FittingLast(front: seq<string>, last: string, n: nat)
    requires n > 0 && FitsBuffer(last) && Plain(last)
    requires LastN(Shown(Chunks(File(front))), n - 1) == LastN(front, n - 1) <==> Fits(LastN(front, n - 1))
    ensures var records := front + [last];
            LastN(Shown(Chunks(File(records))), n) == LastN(records, n) <==> Fits(LastN(records, n))
  {
    assert (front + [last])[..|front|] == front;
    ChunksOfFile(front + [last]);
    ShortRecordIsShown(last);
    SameLast(Shown(Chunks(File(front))), front, last, n);
    LastFits(LastN(front, n - 1), last);
  }

  /** And one that does not. */
  lemma LongLast(front: seq<string>, last: string, n: nat)
    requires n > 0 && !FitsBuffer(last)
    ensures LastN(Shown(Chunks(File(front + [last]))), n) != LastN(front + [last], n)
    ensures !Fits(LastN(front + [last], n))
  {
    assert (front + [last])[..|front|] == front;
    ChunksOfFile(front + [last]);
    LongRecordIsCut(last);
    OtherLast(Shown(Chunks(File(front))), Shown(Chunks(last + "\n")), front, last, n);
    LastNGrows(front, last, n);
    LastFits(LastN(front, n - 1), last);
  }

  /** Write/view agreement: the newest n lines that the viewer sees are the newest n records that were
      written if and only if each of these n, newline included, is shorter than the line buffer. */
  lemma {:induction false} ViewAgrees(records: seq<string>, n: nat)
    requires forall i :: 0 <= i < |records| ==> Plain(records[i])
    ensures LastN(Shown(Chunks(File(records))), n) == LastN(records, n) <==> Fits(LastN(records, n))
    decreases |records|
  {
    if records != [] && n > 0 {
      var front, last := records[..|records| - 1], records[|records| - 1];
      assert front + [last] == records;
      if FitsBuffer(last) {
        ViewAgrees(front, n - 1);
        FittingLast(front, last, n);
      } else {
        LongLast(front, last, n);
      }
    }
  }

  lemma LastFits(records: seq<string>, last: string)
    ensures Fits(records + [last]) <==> Fits(records) && FitsBuffer(last)
  {
    assert (records + [last])[|records|] == last;
    assert forall i :: 0 <= i < |records| ==> (records + [last])[i] == records[i];
  }

  datatype Call = Call(stamp: Stamp, component: string, message: string, level: int)

  function RecordsOf(calls: seq<Call>): seq<string> {
    seq(|calls|, i requires 0 <= i < |calls| =>
      Record(calls[i].stamp, calls[i].component, calls[i].message, calls[i].level))
  }

  /** A date of two-digit fields and a year of at most four digits. */
  predicate Dated(t: Stamp) {
    t.month < 100 && t.day < 100 && t.year < 10000 && t.hour < 100 && t.minute < 100
  }

  lemma DigitsLength(n: nat)
    ensures n < 100 ==> |Digits(n)| <= 2
    ensures n < 10000 ==> |Digits(n)| <= 4
  {
    if n >= 10 {
      DigitsLength(n / 10);
    }
  }

  lemma StampLength(t: Stamp)
    requires Dated(t)
    ensures |StampText(t)| == 21
  {
    DigitsLength(t.month);
    DigitsLength(t.day);
    DigitsLength(t.year);
    DigitsLength(t.hour);
    DigitsLength(t.minute);
  }

  lemma {:induction false} ZerosHaveNoValue(n: nat, s: string)
    ensures ValueOf(seq(n, _ => '0') + s) == ValueOf(s)
    decreases |s|, n
  {
    var t := seq(n, _ => '0') + s;
    if s != "" {
      var front, c := s[..|s| - 1], s[|s| - 1];
      assert t == seq(n, _ => '0') + front + [c] && s == front + [c];
      ValueAppends(seq(n, _ => '0') + front, c);
      ValueAppends(front, c);
      ZerosHaveNoValue(n, front);
    } else if n > 0 {
      assert t == seq(n - 1, _ => '0') + "" + ['0'];
      ValueAppends(seq(n - 1, _ => '0') + "", '0');
      ZerosHaveNoValue(n - 1, "");
    } else {
      assert t == "";
    }
  }

  lemma PaddedHasValue(n: nat, width: nat)
    ensures ValueOf(Padded(n, width)) == n
  {
    ValueOfDigits(n);
    var digits := Digits(n);
    ZerosHaveNoValue(if |digits| < width then width - |digits| else 0, digits);
    assert |digits| >= width ==> "" + digits == digits;
  }

  lemma DateParts(month: string, day: string, year: string)
    requires |month| == |day| == 2 && |year| == 4
    ensures var s := "[" + month + "/" + day + "/" + year + "] ";
            && |s| == 13 && s[0] == '[' && s[1..3] == month && s[3] == '/' && s[4..6] == day && s[6] == '/'
            && s[7..11] == year && s[11..13] == "] "
  {
  }

  lemma TimeParts(hour: string, minute: string)
    requires |hour| == |minute| == 2
    ensures var s := "[" + hour + ":" + minute + "] ";
            |s| == 8 && s[0] == '[' && s[1..3] == hour && s[3] == ':' && s[4..6] == minute && s[6..8] == "] "
  {
  }

  /** The date, at its positions: month, day and year. */
  predicate ReadsDate(s: string, t: Stamp) {
    && |s| == 13 && s[0] == '[' && s[3] == '/' && s[6] == '/' && s[11..13] == "] "
    && ValueOf(s[1..3]) == t.month && ValueOf(s[4..6]) == t.day && ValueOf(s[7..11]) == t.year
  }

  /** The time: hour and minute. */
  predicate ReadsTime(s: string, t: Stamp) {
    && |s| == 8 && s[0] == '[' && s[3] == ':' && s[6..8] == "] "
    && ValueOf(s[1..3]) == t.hour && ValueOf(s[4..6]) == t.minute
  }

  lemma StampReads(t: Stamp)
    requires Dated(t)
    ensures ReadsDate(DateText(t), t) && ReadsTime(TimeText(t), t)
  {
    FieldLengths(t);
    PaddedHasValue(t.month, 2);
    PaddedHasValue(t.day, 2);
    PaddedHasValue(t.year, 4);
    PaddedHasValue(t.hour, 2);
    PaddedHasValue(t.minute, 2);
    DateParts(Padded(t.month, 2), Padded(t.day, 2), Padded(t.year, 4));
    TimeParts(Padded(t.hour, 2), Padded(t.minute, 2));
  }

  lemma FieldLengths(t: Stamp)
    requires Dated(t)
    ensures |Padded(t.month, 2)| == |Padded(t.day, 2)| == |Padded(t.hour, 2)| == |Padded(t.minute, 2)| == 2
    ensures |Padded(t.year, 4)| == 4
  {
    DigitsLength(t.month);
    DigitsLength(t.day);
    DigitsLength(t.year);
    DigitsLength(t.hour);
    DigitsLength(t.minute);
  }

  lemma RecordSplits(t: Stamp, component: string, message: string, level: int)
    requires Dated(t)
    ensures var r := Record(t, component, message, level);
            && |r| >= 21 && r[..13] == DateText(t) && r[13..21] == TimeText(t)
            && r[21..] == component + " " + message + " " + LevelName(level)
  {
    StampReads(t);
    var words := component + " " + message + " " + LevelName(level);
    RecordParts(DateText(t), TimeText(t), words);
    WordsTogether(StampText(t), component, message, LevelName(level));
  }

  lemma WordsTogether(stamp: string, component: string, message: string, level: string)
    ensures stamp + component + " " + message + " " + level == stamp + (component + " " + message + " " + level)
  {
  }

  /** A dated record can be read back: the date, the time, the component, the message and the level stand
      in this order, and every number in its place. */
  lemma RecordReads(t: Stamp, component: string, message: string, level: int)
    requires Dated(t)
    ensures var r := Record(t, component, message, level);
            |r| >= 21 && ReadsDate(r[..13], t) && ReadsTime(r[13..21], t)
    ensures var words := Record(t, component, message, level)[21..];
            && (level == 0 ==> words == component + " " + message + " " + "LOG")
            && (level == 1 ==> words == component + " " + message + " " + "WARN")
            && (level == 2 ==> words == component + " " + message + " " + "CRITICAL")
            && (level == 3 ==> words == component + " " + message + " " + "FATAL")
            && (level < 0 || level > 3 ==> words == component + " " + message + " " + "UNKNOWN")
  {
    StampReads(t);
    RecordSplits(t, component, message, level);
  }

  lemma RecordParts(date: string, time: string, words: string)
    requires |date| == 13 && |time| == 8
    ensures var r := date + time + words; r[..13] == date && r[13..21] == time && r[21..] == words
  {
  }

  /** The buffer takes every record whose three words have at most 487 characters together. */
  lemma RecordFitsIff(t: Stamp, component: string, message: string, level: int)
    requires Dated(t)
    ensures FitsBuffer(Record(t, component, message, level)) <==>
              |component| + |message| + |LevelName(level)| <= 487
    ensures |component| + |message| <= 479 ==> FitsBuffer(Record(t, component, message, level))
  {
    StampLength(t);
  }

  lemma CallsArePlain(calls: seq<Call>)
    requires forall i :: 0 <= i < |calls| ==> Clean(calls[i].component) && Clean(calls[i].message)
    ensures forall i :: 0 <= i < |calls| ==> Plain(RecordsOf(calls)[i])
  {
    forall i | 0 <= i < |calls| ensures Plain(RecordsOf(calls)[i]) {
      RecordIsPlain(calls[i].stamp, calls[i].component, calls[i].message, calls[i].level);
    }
  }

  lemma {:induction false} CutGrows(s: string, more: string, room: nat)
    ensures Cut(s + more, room) >= Cut(s, room)
    ensures Cut(s, room) < |s| ==> Cut(s + more, room) == Cut(s, room)
  {
    if s != "" && room > 0 {
      assert (s + more)[1..] == s[1..] + more;
      CutGrows(s[1..], more, room - 1);
    }
  }

  /** Appending to the file never takes a chunk away. */
  lemma {:induction false} ChunksGrow(s: string, more: string)
    ensures |Chunks(s)| <= |Chunks(s + more)|
    decreases |s|
  {
    if s != "" {
      var n := Cut(s, LINE_SIZE - 1);
      CutGrows(s, more, LINE_SIZE - 1);
      if n < |s| {
        assert (s + more)[n..] == s[n..] + more;
        ChunksGrow(s[n..], more);
      } else {
        assert Chunks(s[n..]) == [];
      }
    }
  }
}

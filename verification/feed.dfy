/** The control feed: how one received message becomes a request, or is refused. */
module Feed {
  import opened Common

  /** The bytes of a message that are received at most. */
  const BUFFER: nat := 255

  datatype Request =
    | SetMode(mode: nat)
    | EnableService(name: string)
    | DisableService(name: string)
    | StartService(name: string)
    | StopService(name: string)
    | RestartService(name: string)

  datatype Parsed = Asked(request: Request) | Refused(reply: string)

  predicate IsDelimiter(c: char) {
    c == ' ' || c == '\t' || c == '\r' || c == '\n'
  }

  /** isspace in the C locale. */
  predicate IsSpace(c: char) {
    IsDelimiter(c) || c == '\U{000B}' || c == '\U{000C}'
  }

  /** The names that are accepted. */
  predicate IsService(name: string) {
    name != "" && forall i :: 0 <= i < |name| ==> name[i] != '/' && !IsSpace(name[i]) && name[i] != '\\'
  }

  /** The check of a name, which is a C string: any NUL has ended it before. */
  method ValidService(service: string) returns (ok: bool)
    ensures ok <==> IsService(service)
  {
    if service == "" {
      return false;
    }
    var p := 0;
    while p < |service|
      invariant p <= |service|
      invariant forall i :: 0 <= i < p ==> service[i] != '/' && !IsSpace(service[i]) && service[i] != '\\'
    {
      if service[p] == '/' || IsSpace(service[p]) || service[p] == '\\' {
        return false;
      }
      p := p + 1;
    }
    return true;
  }

  // ---- Cutting a message into words ----

  function Skipped(s: string): string {
    if s != "" && IsDelimiter(s[0]) then Skipped(s[1..]) else s
  }

  function WordLength(s: string): (n: nat)
    ensures n <= |s|
  {
    if s == "" || IsDelimiter(s[0]) then 0 else 1 + WordLength(s[1..])
  }

  /** strtok: the next word, if there is one. */
  function Word(s: string): Option<string> {
    var t := Skipped(s);
    if t == "" then None else Some(t[..WordLength(t)])
  }

  /** Where the next strtok goes on: behind the delimiter that ended this word. */
  function Rest(s: string): string {
    var t := Skipped(s);
    if WordLength(t) < |t| then t[WordLength(t) + 1..] else ""
  }

  // ---- Numbers ----

  function SpacesSkipped(s: string): string {
    if s != "" && IsSpace(s[0]) then SpacesSkipped(s[1..]) else s
  }

  function Unsigned(s: string): Option<int> {
    if IsNumeral(s) then Some(ValueOf(s)) else None
  }

  /** strtol with base 10, if it takes the whole string. A value beyond the range of long is clamped to
      its ends there, which are refused as modes like the value itself. */
  function Number(s: string): Option<int> {
    var t := SpacesSkipped(s);
    if t != "" && t[0] == '+' then Unsigned(t[1..])
    else if t != "" && t[0] == '-' then
      var n := Unsigned(t[1..]);
      if n.Some? then Some(-n.value) else None
    else Unsigned(t)
  }

  predicate Spaces(s: string) {
    forall i :: 0 <= i < |s| ==> IsSpace(s[i])
  }

  predicate IsNumeral(s: string) {
    s != "" && forall i :: 0 <= i < |s| ==> IsDigit(s[i])
  }

  /** White space, perhaps a sign, and then digits only. */
  predicate IsNumber(s: string, space: string, sign: string, digits: string, n: int) {
    && s == space + sign + digits && Spaces(space) && (sign == "" || sign == "+" || sign == "-") && IsNumeral(digits)
    && n == if sign == "-" then -ValueOf(digits) else ValueOf(digits)
  }

  lemma {:induction false} SpacesSplit(s: string) returns (space: string)
    ensures Spaces(space) && s == space + SpacesSkipped(s)
    ensures SpacesSkipped(s) == "" || !IsSpace(SpacesSkipped(s)[0])
  {
    space := "";
    if s != "" && IsSpace(s[0]) {
      var more := SpacesSplit(s[1..]);
      space := [s[0]] + more;
      assert s == [s[0]] + s[1..] && [s[0]] + (more + SpacesSkipped(s)) == space + SpacesSkipped(s);
    }
  }

  lemma {:induction false} SpacesGone(space: string, t: string)
    requires Spaces(space) && t != "" && !IsSpace(t[0])
    ensures SpacesSkipped(space + t) == t
  {
    if space == "" {
      assert space + t == t;
    } else {
      assert (space + t)[1..] == space[1..] + t;
      SpacesGone(space[1..], t);
    }
  }

  /** What strtol takes completely, and its value. */
  lemma NumberIff(s: string, n: int)
    ensures Number(s) == Some(n) <==> exists space, sign, digits :: IsNumber(s, space, sign, digits, n)
  {
    if Number(s) == Some(n) {
      var space := SpacesSplit(s);
      SignedIs(s, space, SpacesSkipped(s), n);
    }
    if space, sign, digits :| IsNumber(s, space, sign, digits, n) {
      NumberIs(s, space, sign, digits, n);
    }
  }

  lemma SignedIs(s: string, space: string, t: string, n: int)
    requires Number(s) == Some(n) && t == SpacesSkipped(s) && s == space + t && Spaces(space)
    ensures exists space, sign, digits :: IsNumber(s, space, sign, digits, n)
  {
    if t != "" && (t[0] == '+' || t[0] == '-') {
      assert t == [t[0]] + t[1..] && s == space + [t[0]] + t[1..];
      assert IsNumber(s, space, [t[0]], t[1..], n);
    } else {
      assert IsNumber(s, space, "", t, n);
    }
  }

  lemma NumberIs(s: string, space: string, sign: string, digits: string, n: int)
    requires IsNumber(s, space, sign, digits, n)
    ensures Number(s) == Some(n)
  {
    var t := sign + digits;
    assert s == space + t;
    DigitIsPlain(digits[0]);
    assert t[0] == if sign == "" then digits[0] else sign[0];
    SpacesGone(space, t);
    assert t[|sign|..] == digits;
  }

  // ---- Commands ----

  function Parse(message: string): Parsed {
    var line := CString(message);
    var command, argument := Word(line), Word(Rest(line));
    if command.None? then Refused("ERR empty command\n")
    else if command.value == "setmode" then ParseMode(argument)
    else ParseService(command.value, argument)
  }

  function ParseService(command: string, argument: Option<string>): Parsed {
    if argument.None? then Refused("ERR missing service\n")
    else if !IsService(argument.value) then Refused("ERR invalid service\n")
    else if command == "enable" then Asked(EnableService(argument.value))
    else if command == "disable" then Asked(DisableService(argument.value))
    else if command == "start" then Asked(StartService(argument.value))
    else if command == "stop" then Asked(StopService(argument.value))
    else if command == "restart" then Asked(RestartService(argument.value))
    else Refused("ERR unknown command\n")
  }

  function ParseMode(argument: Option<string>): Parsed {
    if argument.None? then Refused("ERR missing mode\n")
    else
      var mode := Number(argument.value);
      if mode.None? || mode.value < 0 || mode.value > 2 then Refused("ERR invalid mode\n")
      else Asked(SetMode(mode.value))
  }

  /** The checks of a command, up to the call that serves it. */
  method Understand(message: string) returns (parsed: Parsed)
    ensures parsed == Parse(message)
  {
    var line := CString(message);
    var command, argument := Word(line), Word(Rest(line));
    if command.None? {
      return Refused("ERR empty command\n");
    }
    if command.value == "setmode" {
      return ParseMode(argument);
    }
    if argument.None? {
      return Refused("ERR missing service\n");
    }
    var valid := ValidService(argument.value);
    if !valid {
      return Refused("ERR invalid service\n");
    }
    match command.value
    case "enable" => return Asked(EnableService(argument.value));
    case "disable" => return Asked(DisableService(argument.value));
    case "start" => return Asked(StartService(argument.value));
    case "stop" => return Asked(StopService(argument.value));
    case "restart" => return Asked(RestartService(argument.value));
    case _ => return Refused("ERR unknown command\n");
  }

  function FailureReply(r: Request): string {
    match r
    case SetMode(_) => "OK\n"
    case EnableService(_) => "ERR enable failed\n"
    case DisableService(_) => "ERR disable failed\n"
    case StartService(_) => "ERR start failed\n"
    case StopService(_) => "ERR stop failed\n"
    case RestartService(_) => "ERR restart failed\n"
  }

  // ---- What a client sends is what is understood ----

  function Verb(r: Request): string {
    match r
    case SetMode(_) => "setmode"
    case EnableService(_) => "enable"
    case DisableService(_) => "disable"
    case StartService(_) => "start"
    case StopService(_) => "stop"
    case RestartService(_) => "restart"
  }

  function Argument(r: Request): string {
    if r.SetMode? then Digits(r.mode) else r.name
  }

  /** The message for a request. */
  function Printed(r: Request): string {
    Verb(r) + " " + Argument(r) + "\n"
  }

  function Received(message: string): string {
    if |message| <= BUFFER then message else message[..BUFFER]
  }

  /** The requests that can be asked for: the three modes, and services whose name is accepted and,
      with the command before it, fits into the buffer. */
  predicate Askable(r: Request) {
    if r.SetMode? then r.mode <= 2
    else IsService(r.name) && '\0' !in r.name && |Verb(r)| + 1 + |r.name| <= BUFFER
  }

  predicate IsWord(s: string) {
    s != "" && '\0' !in s && forall i :: 0 <= i < |s| ==> !IsDelimiter(s[i])
  }

  lemma {:induction false} CStringAppends(a: string, b: string)
    requires '\0' !in a
    ensures CString(a + b) == a + CString(b)
  {
    if a == "" {
      assert a + b == b;
    } else {
      assert (a + b)[1..] == a[1..] + b;
      CStringAppends(a[1..], b);
      assert [a[0]] + (a[1..] + CString(b)) == a + CString(b);
    }
  }

  lemma {:induction false} WordStops(word: string, rest: string)
    requires forall i :: 0 <= i < |word| ==> !IsDelimiter(word[i])
    requires rest == "" || IsDelimiter(rest[0])
    ensures WordLength(word + rest) == |word|
  {
    if word == "" {
      assert word + rest == rest;
    } else {
      assert (word + rest)[1..] == word[1..] + rest;
      WordStops(word[1..], rest);
    }
  }

  /** A message that begins with a word and a blank. */
  lemma FirstWord(word: string, rest: string)
    requires IsWord(word)
    ensures Word(CString(word + " " + rest)) == Some(word)
    ensures Rest(CString(word + " " + rest)) == CString(rest)
  {
    var line := CString(word + " " + rest);
    CStringAppends(word + " ", rest);
    assert line == word + (" " + CString(rest));
    WordStops(word, " " + CString(rest));
    assert Skipped(line) == line && line[..|word|] == word;
    assert line[|word| + 1..] == CString(rest);
  }

  lemma {:induction false} SkippedIsShorter(s: string)
    ensures |Skipped(s)| <= |s| && ('\0' !in s ==> '\0' !in Skipped(s))
    ensures Skipped(s) == "" || !IsDelimiter(Skipped(s)[0])
  {
    if s != "" && IsDelimiter(s[0]) {
      SkippedIsShorter(s[1..]);
    }
  }

  lemma {:induction false} WordHasNoDelimiter(s: string)
    ensures forall i :: 0 <= i < WordLength(s) ==> !IsDelimiter(s[i])
  {
    if s != "" && !IsDelimiter(s[0]) {
      WordHasNoDelimiter(s[1..]);
    }
  }

  /** Whatever is understood as a word is one, and was there. */
  lemma WordIsWord(s: string)
    ensures var w := Word(CString(s)); w.Some? ==> IsWord(w.value) && |w.value| <= |s|
  {
    var t := Skipped(CString(s));
    CStringIs(s);
    SkippedIsShorter(CString(s));
    WordHasNoDelimiter(t);
    assert t != "" ==> WordLength(t) > 0;
  }

  /** The end of a message, of which the newline may be missing. */
  lemma LastWord(word: string, rest: string)
    requires IsWord(word) && (rest == "" || rest == "\n")
    ensures Word(CString(word + rest)) == Some(word)
  {
    CStringAppends(word, rest);
    assert CString(rest) == rest;
    WordStops(word, rest);
    assert Skipped(word + rest) == word + rest && (word + rest)[..|word|] == word;
  }

  lemma DigitIsPlain(c: char)
    requires IsDigit(c)
    ensures !IsSpace(c) && c != '\0' && c != '+' && c != '-'
  {
    assert c as int >= 48;
  }

  lemma {:induction false} DigitsAreDigits(n: nat)
    ensures Digits(n) != "" && forall i :: 0 <= i < |Digits(n)| ==> IsDigit(Digits(n)[i])
  {
    DigitValue(n % 10);
    if n >= 10 {
      DigitsAreDigits(n / 10);
    }
  }

  lemma ModeArgument(n: nat)
    ensures IsWord(Digits(n)) && Number(Digits(n)) == Some(n)
  {
    DigitsAreDigits(n);
    ValueOfDigits(n);
    var s := Digits(n);
    forall i | 0 <= i < |s| ensures !IsSpace(s[i]) && s[i] != '\0' && s[i] != '+' && s[i] != '-' {
      DigitIsPlain(s[i]);
    }
    assert SpacesSkipped(s) == s;
  }

  lemma VerbIsWord(r: Request)
    ensures IsWord(Verb(r)) && |Verb(r)| <= 7
  {
  }

  function Understood(r: Request, argument: Option<string>): Parsed {
    if r.SetMode? then ParseMode(argument)
    else if argument.None? then Refused("ERR missing service\n")
    else if !IsService(argument.value) then Refused("ERR invalid service\n")
    else Asked(match r
                  case EnableService(_) => EnableService(argument.value)
                  case DisableService(_) => DisableService(argument.value)
                  case StartService(_) => StartService(argument.value)
                  case StopService(_) => StopService(argument.value)
                  case _ => RestartService(argument.value))
  }

  lemma VerbNamesService(r: Request, argument: Option<string>)
    requires !r.SetMode?
    ensures Verb(r) != "setmode" && ParseService(Verb(r), argument) == Understood(r, argument)
  {
  }

  lemma VerbDecides(r: Request, rest: string)
    ensures Parse(Verb(r) + " " + rest) == Understood(r, Word(CString(rest)))
  {
    VerbIsWord(r);
    FirstWord(Verb(r), rest);
    if !r.SetMode? { VerbNamesService(r, Word(CString(rest))); }
  }

  // ---- Which messages are requests ----

  predicate Delimiters(s: string) {
    forall i :: 0 <= i < |s| ==> IsDelimiter(s[i])
  }

  predicate Unbroken(s: string) {
    s != "" && forall i :: 0 <= i < |s| ==> !IsDelimiter(s[i])
  }

  /** Nothing more of a word follows. */
  predicate WordOver(rest: string) {
    rest == "" || IsDelimiter(rest[0])
  }

  /** The line begins with this word, after delimiters. */
  ghost predicate StartsWith(line: string, word: string, rest: string) {
    exists d :: Delimiters(d) && line == d + word + rest && Unbroken(word) && WordOver(rest)
  }

  /** The first two words of a line. */
  ghost predicate FirstWords(line: string, command: string, argument: string) {
    exists tail, rest :: StartsWith(line, command, tail) && tail != "" && StartsWith(tail, argument, rest)
  }

  lemma {:induction false} SkippedSplits(s: string) returns (d: string)
    ensures Delimiters(d) && s == d + Skipped(s) && (Skipped(s) == "" || !IsDelimiter(Skipped(s)[0]))
  {
    d := "";
    if s != "" && IsDelimiter(s[0]) {
      var d' := SkippedSplits(s[1..]);
      d := [s[0]] + d';
      assert s == [s[0]] + s[1..] && Skipped(s) == Skipped(s[1..]);
      assert [s[0]] + (d' + Skipped(s)) == d + Skipped(s);
    }
  }

  lemma {:induction false} SkippedOf(d: string, t: string)
    requires Delimiters(d) && (t == "" || !IsDelimiter(t[0]))
    ensures Skipped(d + t) == t
  {
    if d == "" {
      assert d + t == t;
    } else {
      assert (d + t)[1..] == d[1..] + t;
      SkippedOf(d[1..], t);
    }
  }

  lemma {:induction false} WordLengthStops(s: string)
    ensures WordOver(s[WordLength(s)..])
  {
    if s != "" && !IsDelimiter(s[0]) {
      WordLengthStops(s[1..]);
      assert s[WordLength(s)..] == s[1..][WordLength(s[1..])..];
    }
  }

  /** What strtok finds is what the line begins with. */
  lemma WordFound(line: string) returns (tail: string)
    requires Word(line).Some?
    ensures StartsWith(line, Word(line).value, tail) && Rest(line) == if tail == "" then "" else tail[1..]
  {
    var d := SkippedSplits(line);
    var t := Skipped(line);
    var n := WordLength(t);
    tail := t[n..];
    WordHasNoDelimiter(t);
    WordLengthStops(t);
    assert line == d + t[..n] + tail && Delimiters(d) && Unbroken(t[..n]);
  }

  lemma WordIs(line: string, word: string, tail: string)
    requires StartsWith(line, word, tail)
    ensures Word(line) == Some(word) && Rest(line) == if tail == "" then "" else tail[1..]
  {
    var d :| Delimiters(d) && line == d + word + tail && Unbroken(word) && WordOver(tail);
    assert line == d + (word + tail);
    SkippedOf(d, word + tail);
    WordStops(word, tail);
    assert (word + tail)[..|word|] == word && (word + tail)[|word|..] == tail;
  }

  /** The delimiter that ended the first word does not matter for the second. */
  lemma NextWord(tail: string, word: string, rest: string)
    requires tail != "" && IsDelimiter(tail[0])
    ensures StartsWith(tail, word, rest) <==> StartsWith(tail[1..], word, rest)
  {
    if StartsWith(tail, word, rest) {
      var d :| Delimiters(d) && tail == d + word + rest && Unbroken(word) && WordOver(rest);
      assert d == "" ==> tail == word + rest;
      assert tail[1..] == d[1..] + word + rest && Delimiters(d[1..]);
    }
    if StartsWith(tail[1..], word, rest) {
      var d :| Delimiters(d) && tail[1..] == d + word + rest && Unbroken(word) && WordOver(rest);
      assert tail == [tail[0]] + tail[1..] && tail == [tail[0]] + d + word + rest;
    }
  }

  lemma TwoWords(line: string, command: string, argument: string)
    ensures Word(line) == Some(command) && Word(Rest(line)) == Some(argument) <==> FirstWords(line, command, argument)
  {
    if Word(line) == Some(command) && Word(Rest(line)) == Some(argument) {
      var tail := WordFound(line);
      assert Skipped("") == "";
      var rest := WordFound(Rest(line));
      NextWord(tail, argument, rest);
    }
    if FirstWords(line, command, argument) {
      var tail, rest :| StartsWith(line, command, tail) && tail != "" && StartsWith(tail, argument, rest);
      WordIs(line, command, tail);
      NextWord(tail, argument, rest);
      WordIs(tail[1..], argument, rest);
    }
  }

  /** The argument asks for just this. */
  predicate Denotes(argument: string, r: Request) {
    if r.SetMode? then r.mode <= 2 && Number(argument) == Some(r.mode)
    else argument == r.name && IsService(argument)
  }

  lemma AskedIff(command: string, argument: Option<string>, r: Request)
    ensures (if command == "setmode" then ParseMode(argument) else ParseService(command, argument)) == Asked(r)
            <==> command == Verb(r) && argument.Some? && Denotes(argument.value, r)
  {
    if command == Verb(r) && !r.SetMode? { VerbNamesService(r, argument); }
  }

  /** A message is a request if and only if its first two words are the command and an argument that
      denotes what is asked for, whatever follows them. */
  lemma RequestIff(message: string, r: Request)
    ensures Parse(message) == Asked(r)
            <==> exists argument :: FirstWords(CString(message), Verb(r), argument) && Denotes(argument, r)
  {
    var line := CString(message);
    var command, argument := Word(line), Word(Rest(line));
    if command.Some? { AskedIff(command.value, argument, r); }
    if Parse(message) == Asked(r) {
      TwoWords(line, Verb(r), argument.value);
    }
    if a :| FirstWords(line, Verb(r), a) && Denotes(a, r) {
      TwoWords(line, Verb(r), a);
    }
  }

  /** The line has just this one word. */
  ghost predicate OnlyWord(line: string, word: string) {
    exists tail :: StartsWith(line, word, tail) && Delimiters(tail)
  }

  lemma NoWord(line: string)
    ensures Word(line).None? <==> Delimiters(line)
  {
    var d := SkippedSplits(line);
    if Delimiters(line) {
      SkippedOf(line, "");
      assert line + "" == line;
    }
    if Skipped(line) == "" {
      assert line == d;
    }
  }

  lemma OneWord(line: string, command: string)
    ensures Word(line) == Some(command) && Word(Rest(line)).None? <==> OnlyWord(line, command)
  {
    NoWord(Rest(line));
    if Word(line) == Some(command) && Word(Rest(line)).None? {
      var tail := WordFound(line);
      assert tail != "" ==> tail == [tail[0]] + tail[1..];
      assert Delimiters(tail);
    }
    if tail :| StartsWith(line, command, tail) && Delimiters(tail) {
      WordIs(line, command, tail);
      assert Delimiters(Rest(line));
    }
  }

  /** The reply to a request that failed names its command; a change of mode is always answered alike. */
  lemma FailuresAreNamed(r: Request)
    ensures FailureReply(r) == if r.SetMode? then "OK\n" else "ERR " + Verb(r) + " failed\n"
  {
    match r
    case SetMode(_) =>
    case EnableService(_) => assert "ERR " + "enable" + " failed\n" == "ERR enable failed\n";
    case DisableService(_) => assert "ERR " + "disable" + " failed\n" == "ERR disable failed\n";
    case StartService(_) => assert "ERR " + "start" + " failed\n" == "ERR start failed\n";
    case StopService(_) => assert "ERR " + "stop" + " failed\n" == "ERR stop failed\n";
    case RestartService(_) => assert "ERR " + "restart" + " failed\n" == "ERR restart failed\n";
  }

  /** Why a message is refused. First: it has no word, or only one. */
  lemma RefusedForItsLength(message: string, command: string)
    ensures Delimiters(CString(message)) ==> Parse(message) == Refused("ERR empty command\n")
    ensures OnlyWord(CString(message), command) ==>
              Parse(message) == Refused(if command == "setmode" then "ERR missing mode\n" else "ERR missing service\n")
  {
    NoWord(CString(message));
    OneWord(CString(message), command);
  }

  predicate ModeNumber(argument: string) {
    Number(argument) == Some(0) || Number(argument) == Some(1) || Number(argument) == Some(2)
  }

  predicate ServiceCommand(command: string) {
    command in {"enable", "disable", "start", "stop", "restart"}
  }

  /** And second: it has two words, of which the argument or the command is not acceptable. */
  lemma RefusedForItsWords(message: string, command: string, argument: string)
    requires FirstWords(CString(message), command, argument)
    ensures command == "setmode" && !ModeNumber(argument) ==> Parse(message) == Refused("ERR invalid mode\n")
    ensures command != "setmode" && !IsService(argument) ==> Parse(message) == Refused("ERR invalid service\n")
    ensures command != "setmode" && IsService(argument) && !ServiceCommand(command) ==>
              Parse(message) == Refused("ERR unknown command\n")
  {
    TwoWords(CString(message), command, argument);
  }

  /** Every message has no word, just one, or a first and a second one. */
  lemma SomeWords(line: string) returns (command: string, argument: string)
    ensures Delimiters(line) || OnlyWord(line, command) || FirstWords(line, command, argument)
  {
    command := if Word(line).Some? then Word(line).value else "";
    argument := if Word(Rest(line)).Some? then Word(Rest(line)).value else "";
    NoWord(line);
    OneWord(line, command);
    TwoWords(line, command, argument);
  }

  /** Only the argument can be cut short by the buffer. */
  lemma ReceivedParts(r: Request) returns (rest: string)
    ensures Received(Printed(r)) == Verb(r) + " " + rest && rest <= Argument(r) + "\n"
    ensures |rest| == |Argument(r)| + 1 || |Verb(r)| + 1 + |rest| == BUFFER
    ensures |Verb(r)| + 1 + |rest| <= BUFFER
  {
    VerbIsWord(r);
    var front, end := Verb(r) + " ", Argument(r) + "\n";
    assert Printed(r) == front + end;
    rest := if |front + end| <= BUFFER then end else end[..BUFFER - |front|];
  }

  lemma ArgumentIsWord(r: Request)
    requires Askable(r)
    ensures IsWord(Argument(r)) && |Verb(r)| + 1 + |Argument(r)| <= BUFFER
    ensures Understood(r, Some(Argument(r))) == Asked(r)
  {
    VerbIsWord(r);
    if r.SetMode? { ModeArgument(r.mode); }
  }

  /** The feed understands a message as the request it was printed for if and only if that request can
      be asked for. */
  lemma UnderstoodIffAskable(r: Request)
    ensures Parse(Received(Printed(r))) == Asked(r) <==> Askable(r)
  {
    var rest := ReceivedParts(r);
    VerbDecides(r, rest);
    WordIsWord(rest);
    if Askable(r) {
      ArgumentIsWord(r);
      assert rest == Argument(r) + rest[|Argument(r)|..];
      LastWord(Argument(r), rest[|Argument(r)|..]);
    }
  }
}

/**
 * The behaviours the repository's tests check, restated over the model:
 * the sample log of `TestParseLog`, the names of `TestTrimSuffixes` and the
 * sender fragments `TestGenerateHTML` looks for.
 */
module Scenarios {
  import opened Wrappers
  import opened GoStrings
  import opened LogParser
  import opened ChannelName
  import opened Colorize

  /** A join, quit, nick or action line: a bracketed date, then '*' and the event text. */
  function EventLine(date: String, rest: String): String {
    "[" + date + "] *" + rest
  }

  /**
   * An event line whose only ']' closes its date is not a chat line, and it
   * is a single line when its parts are.
   */
  lemma EventLineSkipped(date: String, rest: String)
    requires ']' !in date && ']' !in rest
    requires '\n' !in date && '\n' !in rest
    ensures !IsChatLine(EventLine(date, rest))
    ensures '\n' !in EventLine(date, rest)
  {
    var line := EventLine(date, rest);
    var d := 1 + |date|;
    assert line == "[" + date + "]" + " *" + rest;
    forall j | 0 <= j ensures !OccursAt(line, "] <", j) {
      OccursAtPos(line, "] <", j, 0);
      OccursAtPos(line, "] <", j, 2);
      if 1 <= j < d { assert line[j] == date[j - 1]; }
      if d + 3 <= j < |line| { assert line[j] == rest[j - d - 3]; }
    }
  }

  /** A chat line is a single line when its parts are. */
  lemma ChatLineSingle(date: String, sender: String, content: String)
    requires '\n' !in date && '\n' !in sender && '\n' !in content
    ensures '\n' !in FormatChatLine(date, sender, content)
  {
  }

  const Date1: String := "2021-03-01T13:25:17.928Z"
  const Date2: String := "2021-03-01T13:37:14.974Z"
  const Date3: String := "2021-03-01T13:59:00.732Z"

  const Content1: String := "creekorful: when in doubt, " + "take it to mail. -> unblock"
  const Content2: String := "thanks for your feedback :)"
  const Content3: String := "creekorful: " + "https://example.org/manual :)"

  const CreekAddress: String := "(~creekorfu@static.8.8.8.8."
  const HentiAddress: String := "(~hentiphase@static.4.4.4.4."
  const ClientsDomain: String := "clients.example.org)"
  const CreekHost: String := CreekAddress + ClientsDomain
  const HentiHost: String := HentiAddress + ClientsDomain

  const Rest1: String := "** creekorful " + CreekHost + " joined"
  const Rest2: String := "** hentiphase " + HentiHost + " joined"
  const Rest3: String := "** creekorful changed " + "nick to creekorful_"
  const Rest4: String := "** creekorful_ changed " + "nick to creekorful"
  const Rest5: String := "** hentiphase " + HentiHost + " quit " + "(Ping timeout: 480 seconds)"
  const Rest6: String := "** hentiphase " + HentiHost + " joined"
  const Rest7: String := "** creekorful " + CreekHost + " quit ()"
  const Rest8: String := "** hentiphase " + HentiHost + " quit " + "(Remote host closed " + "the connection)"
  const Rest9: String := "** creekorful " + CreekHost + " joined"
  const Rest10: String := " creekorful sent a " + "long message:  < something >"

  const Event1: String := EventLine("2021-03-01T10:29:59.215Z", Rest1)
  const Event2: String := EventLine("2021-03-01T10:29:59.215Z", Rest2)
  const Event3: String := EventLine("2021-03-01T11:59:42.847Z", Rest3)
  const Event4: String := EventLine("2021-03-01T11:59:43.847Z", Rest4)
  const Event5: String := EventLine("2021-03-01T12:00:43.164Z", Rest5)
  const Event6: String := EventLine("2021-03-01T13:00:59.215Z", Rest6)
  const Chat1: String := FormatChatLine(Date1, "hentiphase", Content1)
  const Chat2: String := FormatChatLine(Date2, "creekorful", Content2)
  const Chat3: String := FormatChatLine(Date3, "hentiphase", Content3)
  const Event7: String := EventLine("2021-03-01T20:38:26.113Z", Rest7)
  const Event8: String := EventLine("2021-03-01T21:24:49.669Z", Rest8)
  const Event9: String := EventLine("2021-03-23T10:29:59.215Z", Rest9)
  const Event10: String := EventLine("2021-03-23T10:46:21.525Z", Rest10)

  /** The sample log: six event lines, three chat lines, four event lines, framed by empty lines. */
  const Opening: seq<String> := ["", Event1, Event2, Event3, Event4, Event5, Event6]
  const Chats: seq<String> := [Chat1, Chat2, Chat3]
  const Closing: seq<String> := [Event7, Event8, Event9, Event10, ""]
  const TestLines: seq<String> := Opening + Chats + Closing

  /** The sample log as one text. */
  function TestLog(): String {
    Join(TestLines, '\n')
  }

  // Each event text of the sample log holds no ']' and no newline. There is
  // one small lemma per literal so that each proof obligation stays cheap.
  lemma CreekAddressPlain() ensures ']' !in CreekAddress && '\n' !in CreekAddress { }
  lemma HentiAddressPlain() ensures ']' !in HentiAddress && '\n' !in HentiAddress { }
  lemma ClientsDomainPlain() ensures ']' !in ClientsDomain && '\n' !in ClientsDomain { }
  lemma HostsPlain()
    ensures ']' !in CreekHost && '\n' !in CreekHost && ']' !in HentiHost && '\n' !in HentiHost
  {
    CreekAddressPlain();
    HentiAddressPlain();
    ClientsDomainPlain();
  }
  lemma Rest1Plain() ensures ']' !in Rest1 && '\n' !in Rest1 { HostsPlain(); }
  lemma Rest2Plain() ensures ']' !in Rest2 && '\n' !in Rest2 { HostsPlain(); }
  lemma Rest3Plain() ensures ']' !in Rest3 && '\n' !in Rest3 { }
  lemma Rest4Plain() ensures ']' !in Rest4 && '\n' !in Rest4 { }
  lemma Rest5Plain() ensures ']' !in Rest5 && '\n' !in Rest5 { HostsPlain(); }
  lemma Rest6Plain() ensures ']' !in Rest6 && '\n' !in Rest6 { HostsPlain(); }
  lemma Rest7Plain() ensures ']' !in Rest7 && '\n' !in Rest7 { HostsPlain(); }
  lemma Rest8Plain() ensures ']' !in Rest8 && '\n' !in Rest8 { HostsPlain(); }
  lemma Rest9Plain() ensures ']' !in Rest9 && '\n' !in Rest9 { HostsPlain(); }
  lemma Rest10Plain() ensures ']' !in Rest10 && '\n' !in Rest10 { }

  // Each event line of the sample log is a single line and not a chat line
  // (again one lemma per line, for the same reason).
  lemma Event1Skipped() ensures !IsChatLine(Event1) && '\n' !in Event1 {
    Rest1Plain();
    EventLineSkipped("2021-03-01T10:29:59.215Z", Rest1);
  }
  lemma Event2Skipped() ensures !IsChatLine(Event2) && '\n' !in Event2 {
    Rest2Plain();
    EventLineSkipped("2021-03-01T10:29:59.215Z", Rest2);
  }
  lemma Event3Skipped() ensures !IsChatLine(Event3) && '\n' !in Event3 {
    Rest3Plain();
    EventLineSkipped("2021-03-01T11:59:42.847Z", Rest3);
  }
  lemma Event4Skipped() ensures !IsChatLine(Event4) && '\n' !in Event4 {
    Rest4Plain();
    EventLineSkipped("2021-03-01T11:59:43.847Z", Rest4);
  }
  lemma Event5Skipped() ensures !IsChatLine(Event5) && '\n' !in Event5 {
    Rest5Plain();
    EventLineSkipped("2021-03-01T12:00:43.164Z", Rest5);
  }
  lemma Event6Skipped() ensures !IsChatLine(Event6) && '\n' !in Event6 {
    Rest6Plain();
    EventLineSkipped("2021-03-01T13:00:59.215Z", Rest6);
  }
  lemma Event7Skipped() ensures !IsChatLine(Event7) && '\n' !in Event7 {
    Rest7Plain();
    EventLineSkipped("2021-03-01T20:38:26.113Z", Rest7);
  }
  lemma Event8Skipped() ensures !IsChatLine(Event8) && '\n' !in Event8 {
    Rest8Plain();
    EventLineSkipped("2021-03-01T21:24:49.669Z", Rest8);
  }
  lemma Event9Skipped() ensures !IsChatLine(Event9) && '\n' !in Event9 {
    Rest9Plain();
    EventLineSkipped("2021-03-23T10:29:59.215Z", Rest9);
  }
  lemma Event10Skipped() ensures !IsChatLine(Event10) && '\n' !in Event10 {
    Rest10Plain();
    EventLineSkipped("2021-03-23T10:46:21.525Z", Rest10);
  }

  /** The opening event lines of the sample log are single lines the loop skips. */
  lemma OpeningSkipped()
    ensures forall line :: line in Opening ==> !IsChatLine(line) && '\n' !in line
  {
    Event1Skipped(); Event2Skipped(); Event3Skipped(); Event4Skipped(); Event5Skipped(); Event6Skipped();
    assert !IsChatLine("");
  }

  /** The closing event lines of the sample log are single lines the loop skips. */
  lemma ClosingSkipped()
    ensures forall line :: line in Closing ==> !IsChatLine(line) && '\n' !in line
  {
    Event7Skipped(); Event8Skipped(); Event9Skipped(); Event10Skipped();
    assert !IsChatLine("");
  }

  // Each chat line of the sample log is a single line.
  lemma Chat1Single() ensures '\n' !in Chat1 { ChatLineSingle(Date1, "hentiphase", Content1); }
  lemma Chat2Single() ensures '\n' !in Chat2 { ChatLineSingle(Date2, "creekorful", Content2); }
  lemma Chat3Single() ensures '\n' !in Chat3 { ChatLineSingle(Date3, "hentiphase", Content3); }

  /** The chat lines of the sample log are single lines. */
  lemma ChatsSingle()
    ensures forall line :: line in Chats ==> '\n' !in line
  {
    Chat1Single();
    Chat2Single();
    Chat3Single();
  }

  // Each chat line of the sample log emits its message when its date parses.
  lemma Chat1Emits<T>(parseTime: String -> Option<T>)
    requires parseTime(Date1).Some?
    ensures Classify(Chat1, parseTime) == Emit(Message(parseTime(Date1).value, "hentiphase", Content1))
  {
    ClassifyFormatted(Date1, "hentiphase", Content1, parseTime);
  }
  lemma Chat2Emits<T>(parseTime: String -> Option<T>)
    requires parseTime(Date2).Some?
    ensures Classify(Chat2, parseTime) == Emit(Message(parseTime(Date2).value, "creekorful", Content2))
  {
    ClassifyFormatted(Date2, "creekorful", Content2, parseTime);
  }
  lemma Chat3Emits<T>(parseTime: String -> Option<T>)
    requires parseTime(Date3).Some?
    ensures Classify(Chat3, parseTime) == Emit(Message(parseTime(Date3).value, "hentiphase", Content3))
  {
    RewrittenChat3Emits(parseTime, Content3);
  }

  /** The third chat line emits its message whatever its content has become. */
  lemma RewrittenChat3Emits<T>(parseTime: String -> Option<T>, content: String)
    requires parseTime(Date3).Some?
    ensures Classify(FormatChatLine(Date3, "hentiphase", content), parseTime)
      == Emit(Message(parseTime(Date3).value, "hentiphase", content))
  {
    ClassifyFormatted(Date3, "hentiphase", content, parseTime);
  }

  /** The sample log splits back into its lines. */
  lemma TestLogLines()
    ensures Split(TestLog(), '\n') == TestLines
  {
    OpeningSkipped();
    ChatsSingle();
    ClosingSkipped();
    forall i | 0 <= i < |TestLines| ensures '\n' !in TestLines[i] {
      assert TestLines[i] in Opening || TestLines[i] in Chats || TestLines[i] in Closing;
    }
    SplitJoin(TestLines, '\n');
  }

  /** A block of skipped lines in front of `rest` changes nothing. */
  lemma {:induction false} SkipBlock<T>(block: seq<String>, rest: seq<String>, classify: String -> Verdict<T>)
    requires forall line :: line in block ==> classify(line).Skip?
    ensures RunLines(block + rest, classify) == RunLines(rest, classify)
    decreases |block|
  {
    if |block| > 0 {
      assert (block + rest)[0] == block[0];
      assert (block + rest)[1..] == block[1..] + rest;
      SkipBlock(block[1..], rest, classify);
    } else {
      assert block + rest == rest;
    }
  }

  /** An emitting line in front of lines that parse adds its message in front. */
  lemma EmitFront<T>(c: String, rest: seq<String>, classify: String -> Verdict<T>)
    requires classify(c).Emit? && RunLines(rest, classify).Success?
    ensures RunLines([c] + rest, classify) == Success([classify(c).msg] + RunLines(rest, classify).value)
  {
    assert ([c] + rest)[0] == c && ([c] + rest)[1..] == rest;
  }

  /** Three emitting lines followed by skipped lines give their three messages. */
  lemma ThreeChatsThenSkipped<T>(c1: String, c2: String, c3: String, closing: seq<String>,
                                 classify: String -> Verdict<T>)
    requires forall line :: line in closing ==> classify(line).Skip?
    requires classify(c1).Emit? && classify(c2).Emit? && classify(c3).Emit?
    ensures RunLines([c1] + ([c2] + ([c3] + closing)), classify)
      == Success([classify(c1).msg, classify(c2).msg, classify(c3).msg])
  {
    SkipBlock(closing, [], classify);
    assert closing + [] == closing;
    EmitFront(c3, closing, classify);
    EmitFront(c2, [c3] + closing, classify);
    EmitFront(c1, [c2] + ([c3] + closing), classify);
    assert [classify(c1).msg] + ([classify(c2).msg] + ([classify(c3).msg] + []))
      == [classify(c1).msg, classify(c2).msg, classify(c3).msg];
  }

  /** Three emitting lines between two blocks of skipped lines give their three messages. */
  lemma ThreeChats<T>(opening: seq<String>, c1: String, c2: String, c3: String, closing: seq<String>,
                      classify: String -> Verdict<T>)
    requires forall line :: line in opening ==> classify(line).Skip?
    requires forall line :: line in closing ==> classify(line).Skip?
    requires classify(c1).Emit? && classify(c2).Emit? && classify(c3).Emit?
    ensures RunLines(opening + [c1, c2, c3] + closing, classify)
      == Success([classify(c1).msg, classify(c2).msg, classify(c3).msg])
  {
    var chats := [c1] + ([c2] + ([c3] + closing));
    ThreeChatsThenSkipped(c1, c2, c3, closing, classify);
    SkipBlock(opening, chats, classify);
    assert opening + [c1, c2, c3] + closing == opening + chats;
  }

  /**
   * The lines of the sample log, as they stand, give its three chat messages
   * when their dates parse.
   */
  lemma TestLinesParse<T>(parseTime: String -> Option<T>)
    requires parseTime(Date1).Some? && parseTime(Date2).Some? && parseTime(Date3).Some?
    ensures ParseLines(TestLines, parseTime) == Success([
      Message(parseTime(Date1).value, "hentiphase", Content1),
      Message(parseTime(Date2).value, "creekorful", Content2),
      Message(parseTime(Date3).value, "hentiphase", Content3)])
  {
    var classify: String -> Verdict<T> := l => Classify(l, parseTime);
    OpeningSkipped();
    ClosingSkipped();
    Chat1Emits(parseTime);
    Chat2Emits(parseTime);
    Chat3Emits(parseTime);
    ThreeChats(Opening, Chat1, Chat2, Chat3, Closing, classify);
  }

  /**
   * parseLog on a text whose URL-rewritten lines are three emitting chat
   * lines between non-chat lines: the channel keeps its name and holds
   * exactly the three messages, in order.
   */
  lemma ParseLogThreeChats<T>(name: String, raw: String, applyURLs: String -> String, parseTime: String -> Option<T>,
                              opening: seq<String>, c1: String, c2: String, c3: String, closing: seq<String>,
                              m1: Message<T>, m2: Message<T>, m3: Message<T>)
    requires Split(applyURLs(raw), '\n') == opening + [c1, c2, c3] + closing
    requires forall line :: line in opening ==> !IsChatLine(line)
    requires forall line :: line in closing ==> !IsChatLine(line)
    requires Classify(c1, parseTime) == Emit(m1)
    requires Classify(c2, parseTime) == Emit(m2)
    requires Classify(c3, parseTime) == Emit(m3)
    ensures ParseLog(name, raw, applyURLs, parseTime) == Success(Channel(name, [m1, m2, m3]))
  {
    var classify: String -> Verdict<T> := l => Classify(l, parseTime);
    ThreeChats(opening, c1, c2, c3, closing, classify);
  }

  /**
   * TestParseLog: parseLog on the sample log, named "#test-channel", keeps
   * that name and yields three messages with the expected senders and the
   * expected first two contents, provided the three dates parse. URL
   * rewriting is a parameter; the one assumption about it is that on the
   * sample log it changes only the content of the third chat line (the one
   * holding the log's only URL), which becomes `content3`.
   */
  lemma TestLogParses<T>(applyURLs: String -> String, parseTime: String -> Option<T>, content3: String)
    requires parseTime(Date1).Some? && parseTime(Date2).Some? && parseTime(Date3).Some?
    requires Split(applyURLs(TestLog()), '\n')
      == Opening + [Chat1, Chat2, FormatChatLine(Date3, "hentiphase", content3)] + Closing
    ensures var r := ParseLog("#test-channel", TestLog(), applyURLs, parseTime);
      && r.Success?
      && r.value.name == "#test-channel"
      && |r.value.messages| == 3
      && r.value.messages[0].sender == "hentiphase" && r.value.messages[0].content == Content1
      && r.value.messages[1].sender == "creekorful" && r.value.messages[1].content == Content2
      && r.value.messages[2].sender == "hentiphase" && r.value.messages[2].content == content3
  {
    var m1 := Message(parseTime(Date1).value, "hentiphase", Content1);
    var m2 := Message(parseTime(Date2).value, "creekorful", Content2);
    var m3 := Message(parseTime(Date3).value, "hentiphase", content3);
    OpeningSkipped();
    ClosingSkipped();
    Chat1Emits(parseTime);
    Chat2Emits(parseTime);
    RewrittenChat3Emits(parseTime, content3);
    ParseLogThreeChats("#test-channel", TestLog(), applyURLs, parseTime,
      Opening, Chat1, Chat2, FormatChatLine(Date3, "hentiphase", content3), Closing, m1, m2, m3);
  }

  /**
   * Lines that pass the chat-line filter but crash the slicing: one that
   * starts with "] <", and one whose first '>' comes before its first '<'.
   */
  lemma CrashingLines<T>(parseTime: String -> Option<T>)
    ensures Classify("] <bob> hi", parseTime) == Crash
    ensures Classify("[x>] <bob> hi", parseTime) == Crash
  {
    var a: String := "] <bob> hi";
    assert OccursAt(a, "] <", 0) && OccursAt(a, ">", 6);
    var b: String := "[x>] <bob> hi";
    assert OccursAt(b, "] <", 3) && OccursAt(b, ">", 2);
    assert b[2] == '>' && b[..2] == "[x";
    assert GtBeforeLt(b);
  }

  /** The names of TestTrimSuffixes with a recognised extension lose it. */
  lemma TestTrimSuffixesListed()
    ensures ChannelNameOf("#test-channel.txt") == "#test-channel"
    ensures ChannelNameOf("#test-channel.log") == "#test-channel"
  {
    var base: String := "#test-channel";
    assert !HasSuffix(base, ".txt") by { assert base[9..] != ".txt"; }
    assert !HasSuffix(base, ".log") by { assert base[9..] != ".log"; }
    assert base + ".txt" == "#test-channel.txt";
    assert base + ".log" == "#test-channel.log";
    ListedSuffixTrimmed(base, LogSuffixes, 0);
    assert !HasSuffix(base + ".log", ".txt") by { assert (base + ".log")[13..] == ".log"; }
    ListedSuffixTrimmed(base, LogSuffixes, 1);
  }

  /** The name of TestTrimSuffixes with an unknown extension is kept whole. */
  lemma TestTrimSuffixesUnlisted()
    ensures ChannelNameOf("#test-channel.bin") == "#test-channel.bin"
  {
    var name: String := "#test-channel.bin";
    assert name[13..] == ".bin";
    NoListedSuffixUnchanged(name, LogSuffixes);
  }

  /**
   * Whatever colour a sender is given, its fragment ends with the bold span
   * around the verbatim sender and a literal '>' entity, as TestGenerateHTML
   * looks for.
   */
  lemma FragmentEndsWithSender(color: String, s: String)
    ensures var tail := "; font-weight: bold;\">" + s + "</span>&gt;";
      HasSuffix(Fragment(color, s), tail)
  {
    var tail := "; font-weight: bold;\">" + s + "</span>&gt;";
    var head := "&lt;<span style=\"color: " + color;
    assert Fragment(color, s) == head + tail;
  }
}

/**
 * The line loop of `parseLog`: the text (after URL rewriting) is split on
 * newlines, chat lines are recognised by two substring tests, three fields
 * are sliced out of each at first-occurrence positions, and the loop stops
 * at the first chat line whose date does not parse.
 *
 * `time.Parse(time.RFC3339, ·)` and `applyURLs` are parameters: the first
 * stands for the date-time grammar of section 5.6 of RFC 3339, the second for
 * the URL-to-anchor rewriting, of which only its place in the pipeline is
 * modelled.
 */
module LogParser {
  import opened Wrappers
  import opened GoStrings

  /** One chat message; `T` is the type of parsed timestamps. */
  datatype Message<T> = Message(time: T, sender: String, content: String)

  /** A channel: its title and its messages in log order. */
  datatype Channel<T> = Channel(name: String, messages: seq<Message<T>>)

  /**
   * Go's slice expressions panic when their bounds are out of range; the
   * model reports the chat line on which that happens instead.
   */
  datatype Crash = SliceOutOfRange(line: String)

  /** The three substrings a chat line is cut into. */
  datatype Fields = Fields(date: String, sender: String, content: String)

  /** The filter of the loop: a line is a chat line when it holds "] <" and ">". */
  predicate IsChatLine(line: String) {
    Contains(line, "] <") && Contains(line, ">")
  }

  /** The filter, character by character: "] <" occurs somewhere and so does a '>'. */
  lemma ChatLineChars(line: String)
    ensures IsChatLine(line) <==>
      (exists j :: OccursAt(line, "] <", j)) && (exists j :: 0 <= j < |line| && line[j] == '>')
  {
    forall j ensures OccursAt(line, ">", j) <==> 0 <= j < |line| && line[j] == '>' {
      OccursAtChar(line, '>', j);
    }
  }

  /** A chat line holds a '<' no later than the one that ends its "] <". */
  lemma ChatLineHasLt(line: String)
    requires Contains(line, "] <")
    ensures 0 <= Index(line, "<") <= Index(line, "] <") + 2
  {
    var d := Index(line, "] <");
    assert line[d..d + 3] == "] <";
    assert line[d + 2..d + 3] == "<";
    assert OccursAt(line, "<", d + 2);
  }

  /** The first occurrence of a one-character string, read character-wise. */
  lemma FirstOfChar(s: String, c: char)
    requires Index(s, [c]) >= 0
    ensures var i := Index(s, [c]); i < |s| && s[i] == c && c !in s[..i]
  {
    var i := Index(s, [c]);
    OccursAtChar(s, c, i);
    forall j | 0 <= j < i ensures s[j] != c {
      OccursAtChar(s, c, j);
    }
  }

  /** Some '>' comes before every '<' of the line. */
  predicate GtBeforeLt(line: String) {
    exists j :: 0 <= j < |line| && line[j] == '>' && '<' !in line[..j]
  }

  /**
   * The slicing of one chat line: the date between the first character and
   * the first "] <", the sender between the first '<' and the first '>',
   * the content after the first "> " (or after the first character when
   * there is no "> "). `None` stands for the panic of an out-of-range
   * slice, which happens exactly when the line starts with "] <" or a '>'
   * precedes its first '<'.
   */
  function SliceFields(line: String): (r: Option<Fields>)
    requires IsChatLine(line)
    ensures r.None? <==> OccursAt(line, "] <", 0) || GtBeforeLt(line)
  {
    var d := Index(line, "] <");
    var lt := Index(line, "<");
    var gt := Index(line, ">");
    var c := Index(line, "> ");
    ChatLineHasLt(line);
    FirstOfChar(line, '<');
    FirstOfChar(line, '>');
    PanicCondition(line);
    Cut(line, d, lt, gt, c)
  }

  /** The three slices at the given indexes, or `None` when one is out of range. */
  function Cut(line: String, d: int, lt: int, gt: int, c: int): Option<Fields>
    requires 0 <= d < |line| && 0 <= lt && 0 <= gt < |line| && -1 <= c < |line| - 1
  {
    if d < 1 || gt < lt + 1 then None
    else Some(Fields(line[1..d], line[lt + 1..gt], line[c + 2..]))
  }

  /** The sender slice is out of range exactly when a '>' precedes every '<'. */
  lemma PanicCondition(line: String)
    requires IsChatLine(line)
    ensures Index(line, "<") >= 0
    ensures Index(line, ">") < Index(line, "<") + 1 <==> GtBeforeLt(line)
  {
    ChatLineHasLt(line);
    FirstOfChar(line, '<');
    FirstOfChar(line, '>');
    var lt := Index(line, "<");
    var gt := Index(line, ">");
    if gt < lt + 1 {
      assert line[gt] == '>';
      assert '<' !in line[..gt] by {
        forall k | 0 <= k < gt ensures line[k] != '<' {
          assert line[..lt][k] == line[k];
        }
      }
    }
    if GtBeforeLt(line) {
      var j :| 0 <= j < |line| && line[j] == '>' && '<' !in line[..j];
    }
  }

  /** The date is what lies between the first character and the first "] <". */
  lemma DateField(line: String)
    requires IsChatLine(line) && SliceFields(line).Some?
    ensures var n := |SliceFields(line).value.date|;
      && 1 + n <= |line|
      && SliceFields(line).value.date == line[1..1 + n]
      && OccursAt(line, "] <", 1 + n)
      && forall j :: 0 <= j < 1 + n ==> !OccursAt(line, "] <", j)
  {
    var d, lt, gt, c := Index(line, "] <"), Index(line, "<"), Index(line, ">"), Index(line, "> ");
    ChatLineHasLt(line);
    assert SliceFields(line) == Cut(line, d, lt, gt, c);
    assert SliceFields(line).value.date == line[1..d];
  }

  /** The sender is enclosed by the first '<' and the first '>' of the line. */
  lemma SenderField(line: String)
    requires IsChatLine(line) && SliceFields(line).Some?
    ensures var sender := SliceFields(line).value.sender;
      exists lt ::
        && 0 <= lt
        && lt + 1 + |sender| < |line|
        && line[lt] == '<'
        && '<' !in line[..lt]
        && sender == line[lt + 1..lt + 1 + |sender|]
        && line[lt + 1 + |sender|] == '>'
        && '>' !in line[..lt + 1 + |sender|]
  {
    ChatLineHasLt(line);
    FirstOfChar(line, '<');
    FirstOfChar(line, '>');
    var lt := Index(line, "<");
    var gt := Index(line, ">");
    assert SliceFields(line).value.sender == line[lt + 1..gt];
  }

  /**
   * The content is the rest of the line after the first "> ", or the line
   * without its first character when it holds no "> ".
   */
  lemma ContentField(line: String)
    requires IsChatLine(line) && SliceFields(line).Some?
    ensures var content := SliceFields(line).value.content;
      var m := |line| - |content|;
      && 0 < m
      && content == line[m..]
      && (if m == 1 then forall j :: !OccursAt(line, "> ", j)
          else OccursAt(line, "> ", m - 2) && forall j :: 0 <= j < m - 2 ==> !OccursAt(line, "> ", j))
  {
    var c := Index(line, "> ");
    var content := SliceFields(line).value.content;
    assert content == line[c + 2..];
    assert |line| - |content| == c + 2;
  }

  /** What the loop does with one line. */
  datatype Verdict<T> =
    | Skip              // not a chat line: `continue`
    | Crash             // a slice expression is out of range: panic
    | Stop              // the date does not parse: `break`
    | Emit(msg: Message<T>)  // the line contributes `msg`

  /** The body of the loop for one line, in the order the Go code evaluates it. */
  function Classify<T>(line: String, parseTime: String -> Option<T>): (v: Verdict<T>)
    ensures v.Skip? <==> !IsChatLine(line)
    ensures v.Crash? <==> IsChatLine(line) && (OccursAt(line, "] <", 0) || GtBeforeLt(line))
    ensures v.Stop? <==> IsChatLine(line) && SliceFields(line).Some? && parseTime(SliceFields(line).value.date).None?
    ensures v.Emit? ==> var f := SliceFields(line).value;
      && parseTime(f.date) == Some(v.msg.time)
      && v.msg.sender == f.sender
      && v.msg.content == f.content
  {
    if !IsChatLine(line) then Skip
    else
      match SliceFields(line)
      case None => Crash
      case Some(f) =>
        match parseTime(f.date)
        case None => Stop
        case Some(t) => Emit(Message(t, f.sender, f.content))
  }

  /**
   * The loop over the lines, in order, for any per-line behaviour: skipped
   * lines are passed over, a crashing line crashes, a stopping line ends the
   * loop and every emitting line contributes its message.
   */
  function RunLines<T>(lines: seq<String>, classify: String -> Verdict<T>): (r: Result<seq<Message<T>>, Crash>)
    ensures r.Success? ==> |r.value| <= |lines|
    ensures r.Failure? ==> exists i :: 0 <= i < |lines| && classify(lines[i]).Crash? && r.error == SliceOutOfRange(lines[i])
    decreases |lines|
  {
    if |lines| == 0 then Success([])
    else
      var line := lines[0];
      match classify(line)
      case Skip =>
        var r := RunLines(lines[1..], classify);
        ShiftCrash(lines, classify, r);
        r
      case Crash => Failure(SliceOutOfRange(line))
      case Stop => Success([])
      case Emit(m) =>
        match RunLines(lines[1..], classify)
        case Failure(e) =>
          ShiftCrash(lines, classify, Failure(e));
          Failure(e)
        case Success(rest) => Success([m] + rest)
  }

  /** One turn of the loop: the verdict on `line` combined with the result for the lines after it. */
  function Step<T>(v: Verdict<T>, line: String, rest: Result<seq<Message<T>>, Crash>): Result<seq<Message<T>>, Crash> {
    match v
    case Skip => rest
    case Crash => Failure(SliceOutOfRange(line))
    case Stop => Success([])
    case Emit(m) =>
      match rest
      case Failure(e) => Failure(e)
      case Success(ms) => Success([m] + ms)
  }

  /** The loop on a non-empty list is one turn followed by the loop on the rest. */
  lemma RunLinesStep<T>(lines: seq<String>, classify: String -> Verdict<T>)
    requires |lines| > 0
    ensures RunLines(lines, classify) == Step(classify(lines[0]), lines[0], RunLines(lines[1..], classify))
  {
  }

  /** A crash in the lines after the first is a crash in the lines. */
  lemma ShiftCrash<T>(lines: seq<String>, classify: String -> Verdict<T>, r: Result<seq<Message<T>>, Crash>)
    requires |lines| > 0
    requires r.Failure? ==> exists i :: 0 <= i < |lines[1..]| && classify(lines[1..][i]).Crash? && r.error == SliceOutOfRange(lines[1..][i])
    ensures r.Failure? ==> exists i :: 0 <= i < |lines| && classify(lines[i]).Crash? && r.error == SliceOutOfRange(lines[i])
  {
    if r.Failure? {
      var i :| 0 <= i < |lines[1..]| && classify(lines[1..][i]).Crash? && r.error == SliceOutOfRange(lines[1..][i]);
      assert lines[1..][i] == lines[i + 1];
    }
  }

  /** The line loop of `parseLog` proper. */
  function ParseLines<T>(lines: seq<String>, parseTime: String -> Option<T>): Result<seq<Message<T>>, Crash>
  {
    RunLines(lines, l => Classify(l, parseTime))
  }

  /**
   * The loop of `parseLog` on its lines: the lines it looks at are exactly
   * the chat lines, and the result is described by `MatchesCutoff` over them.
   */
  lemma ParseLinesSpec<T>(lines: seq<String>, parseTime: String -> Option<T>)
    ensures var classify := l => Classify(l, parseTime);
      && (forall line :: line in Kept(lines, classify) <==> line in lines && IsChatLine(line))
      && MatchesCutoff(lines, classify)
  {
    RunLinesSpec(lines, l => Classify(l, parseTime));
  }

  /**
   * parseLog: the channel is named `name`, its messages are those of the
   * lines of the URL-rewritten text, at most one per line, and the only
   * failure is a crash on a chat line whose slicing is out of range.
   */
  function ParseLog<T>(name: String, raw: String, applyURLs: String -> String, parseTime: String -> Option<T>)
    : (r: Result<Channel<T>, Crash>)
    ensures r.Success? ==> r.value.name == name
    ensures r.Success? ==> |r.value.messages| <= |Split(applyURLs(raw), '\n')|
    ensures r.Failure? ==> exists line ::
      && line in Split(applyURLs(raw), '\n')
      && IsChatLine(line)
      && (OccursAt(line, "] <", 0) || GtBeforeLt(line))
      && r.error == SliceOutOfRange(line)
  {
    var lines := Split(applyURLs(raw), '\n');
    match ParseLines(lines, parseTime)
    case Failure(e) => Failure(e)
    case Success(ms) => Success(Channel(name, ms))
  }

  /** The lines the loop does not skip, in their original order. */
  function Kept<T>(lines: seq<String>, classify: String -> Verdict<T>): (r: seq<String>)
    ensures |r| <= |lines|
    ensures forall line :: line in r <==> line in lines && !classify(line).Skip?
    decreases |lines|
  {
    if |lines| == 0 then []
    else
      var rest := Kept(lines[1..], classify);
      assert lines == [lines[0]] + lines[1..];
      if classify(lines[0]).Skip? then rest else [lines[0]] + rest
  }

  /** On one line, `Kept` keeps it exactly when the loop does not skip it. */
  lemma KeptSingle<T>(line: String, classify: String -> Verdict<T>)
    ensures Kept([line], classify) == if classify(line).Skip? then [] else [line]
  {
    assert [line][1..] == [];
  }

  /**
   * On a concatenation, `Kept` keeps the lines of each part, in order; with
   * `KeptSingle` this fixes `Kept` on every list, order and repeats included.
   */
  lemma {:induction false} KeptAppend<T>(a: seq<String>, b: seq<String>, classify: String -> Verdict<T>)
    ensures Kept(a + b, classify) == Kept(a, classify) + Kept(b, classify)
    decreases |a|
  {
    if |a| == 0 {
      assert a + b == b;
    } else {
      assert (a + b)[0] == a[0];
      assert (a + b)[1..] == a[1..] + b;
      KeptAppend(a[1..], b, classify);
    }
  }

  /** The number of leading lines of `kept` that emit a message. */
  function Cutoff<T>(kept: seq<String>, classify: String -> Verdict<T>): (n: nat)
    ensures n <= |kept|
    ensures forall j :: 0 <= j < n ==> classify(kept[j]).Emit?
    ensures n < |kept| ==> !classify(kept[n]).Emit?
    decreases |kept|
  {
    if |kept| == 0 || !classify(kept[0]).Emit? then 0
    else 1 + Cutoff(kept[1..], classify)
  }

  /**
   * What the loop computes, stated without the loop: take the lines that are
   * not skipped, keep the longest run of emitting ones from the start, and
   * collect their messages; the first kept line that does not emit either
   * crashes or silently ends the result.
   */
  ghost predicate MatchesCutoff<T>(lines: seq<String>, classify: String -> Verdict<T>) {
    var kept := Kept(lines, classify);
    var n := Cutoff(kept, classify);
    var r := RunLines(lines, classify);
    && (r.Failure? <==> n < |kept| && classify(kept[n]).Crash?)
    && (r.Failure? ==> r.error == SliceOutOfRange(kept[n]))
    && (r.Success? ==> |r.value| == n)
    && (r.Success? ==> forall j :: 0 <= j < n ==> r.value[j] == classify(kept[j]).msg)
  }

  /** The loop computes exactly what `MatchesCutoff` describes. */
  lemma {:induction false} RunLinesSpec<T>(lines: seq<String>, classify: String -> Verdict<T>)
    ensures MatchesCutoff(lines, classify)
    decreases |lines|
  {
    if |lines| > 0 {
      var line := lines[0];
      var kept := Kept(lines, classify);
      var tailKept := Kept(lines[1..], classify);
      RunLinesSpec(lines[1..], classify);
      match classify(line)
      case Skip =>
        assert kept == tailKept;
      case Crash =>
        assert kept[0] == line;
      case Stop =>
        assert kept[0] == line;
      case Emit(m) =>
        EmitStep(lines, classify);
    }
  }

  /** The inductive step of `RunLinesSpec` for a first line that emits a message. */
  lemma EmitStep<T>(lines: seq<String>, classify: String -> Verdict<T>)
    requires |lines| > 0 && classify(lines[0]).Emit?
    requires MatchesCutoff(lines[1..], classify)
    ensures MatchesCutoff(lines, classify)
  {
    var line := lines[0];
    var m := classify(line).msg;
    var kept := Kept(lines, classify);
    var tailKept := Kept(lines[1..], classify);
    var rest := RunLines(lines[1..], classify);
    assert kept == [line] + tailKept;
    assert Cutoff(kept, classify) == 1 + Cutoff(tailKept, classify);
    if rest.Success? {
      var ms := RunLines(lines, classify).value;
      assert ms == [m] + rest.value;
      forall j | 0 <= j < |ms| ensures ms[j] == classify(kept[j]).msg {
        if j > 0 {
          assert ms[j] == rest.value[j - 1];
          assert kept[j] == tailKept[j - 1];
        }
      }
    }
  }

  /** Lines the loop skips have no influence on the result. */
  lemma {:induction false} SkippedLineIgnored<T>(lines: seq<String>, i: nat, classify: String -> Verdict<T>)
    requires i < |lines| && classify(lines[i]).Skip?
    ensures RunLines(lines, classify) == RunLines(lines[..i] + lines[i + 1..], classify)
    decreases i
  {
    if i > 0 {
      var dropped := lines[..i] + lines[i + 1..];
      SkippedLineIgnored(lines[1..], i - 1, classify);
      assert dropped[0] == lines[0];
      assert dropped[1..] == lines[1..][..i - 1] + lines[1..][i..];
      RunLinesStep(lines, classify);
      RunLinesStep(dropped, classify);
    } else {
      assert lines[..0] + lines[1..] == lines[1..];
    }
  }

  /**
   * A stopping line ends the loop: the result is that of the lines before
   * it, so no message of that line or of any later line appears.
   */
  lemma {:induction false} StopLineEndsLoop<T>(lines: seq<String>, i: nat, classify: String -> Verdict<T>)
    requires i < |lines| && classify(lines[i]).Stop?
    ensures RunLines(lines, classify) == RunLines(lines[..i], classify)
    decreases i
  {
    if i > 0 {
      StopLineEndsLoop(lines[1..], i - 1, classify);
      assert lines[..i][0] == lines[0];
      assert lines[..i][1..] == lines[1..][..i - 1];
      RunLinesStep(lines, classify);
      RunLinesStep(lines[..i], classify);
    } else {
      RunLinesStep(lines, classify);
    }
  }

  /** parseLog ignores every line that lacks "] <" or ">". */
  lemma NonChatLineIgnored<T>(lines: seq<String>, i: nat, parseTime: String -> Option<T>)
    requires i < |lines| && !IsChatLine(lines[i])
    ensures ParseLines(lines, parseTime) == ParseLines(lines[..i] + lines[i + 1..], parseTime)
  {
    SkippedLineIgnored(lines, i, l => Classify(l, parseTime));
  }

  /**
   * A chat line that slices in range but whose date is not an RFC 3339
   * date-time ends parseLog: nothing from it or from later lines is kept.
   */
  lemma BadDateStops<T>(lines: seq<String>, i: nat, parseTime: String -> Option<T>)
    requires i < |lines| && IsChatLine(lines[i]) && SliceFields(lines[i]).Some?
    requires parseTime(SliceFields(lines[i]).value.date).None?
    ensures ParseLines(lines, parseTime) == ParseLines(lines[..i], parseTime)
  {
    StopLineEndsLoop(lines, i, l => Classify(l, parseTime));
  }

  /** The layout of a chat line in the log: `[date] <sender> content`. */
  function FormatChatLine(date: String, sender: String, content: String): String {
    "[" + date + "] <" + sender + "> " + content
  }

  /** Where the markers of a formatted chat line sit. */
  lemma FormattedMarkers(date: String, sender: String, content: String)
    requires '<' !in date && '>' !in date && '>' !in sender
    ensures var line := FormatChatLine(date, sender, content);
      var d := 1 + |date|;
      var g := d + 3 + |sender|;
      && line[1..d] == date && line[d + 3..g] == sender && line[g + 2..] == content
      && OccursAt(line, "] <", d) && OccursAt(line, "> ", g)
      && (forall j :: 0 <= j < d + 2 ==> line[j] != '<')
      && (forall j :: 0 <= j < g ==> line[j] != '>')
  {
    var line := FormatChatLine(date, sender, content);
    var d := 1 + |date|;
    var g := d + 3 + |sender|;
    var head := "[" + date + "] <" + sender;
    assert line == head + "> " + content;
    assert head[..d] == "[" + date;
    assert line[..g] == head;
    assert line[d..d + 3] == "] <";
    assert line[g..g + 2] == "> ";
    forall j | 0 <= j < d + 2 ensures line[j] != '<' {
      if 1 <= j < d { assert line[j] == date[j - 1]; }
    }
    forall j | 0 <= j < g ensures line[j] != '>' {
      if 1 <= j < d { assert line[j] == date[j - 1]; }
      if d + 3 <= j { assert line[j] == sender[j - d - 3]; }
    }
  }

  /**
   * A line with "] <" at `d`, no '<' before the one it holds, and its
   * first '>' (followed by a space) at `g` past that '<', slices into the
   * text between its markers.
   */
  lemma SliceAtMarkers(line: String, d: nat, g: nat)
    requires 1 <= d && d + 3 <= g
    requires OccursAt(line, "] <", d) && OccursAt(line, "> ", g)
    requires forall j :: 0 <= j < d + 2 ==> line[j] != '<'
    requires forall j :: 0 <= j < g ==> line[j] != '>'
    ensures IsChatLine(line)
    ensures SliceFields(line) == Some(Fields(line[1..d], line[d + 3..g], line[g + 2..]))
  {
    MarkerIndexes(line, d, g);
    MarkerCharIndexes(line, d, g);
    SliceAtIndexes(line, d, g);
  }

  /** A line whose markers are first found at `d`, `d + 2` and `g` slices between them. */
  lemma SliceAtIndexes(line: String, d: nat, g: nat)
    requires 1 <= d && d + 3 <= g
    requires Index(line, "] <") == d && Index(line, "<") == d + 2
    requires Index(line, ">") == g && Index(line, "> ") == g
    ensures IsChatLine(line)
    ensures SliceFields(line) == Some(Fields(line[1..d], line[d + 3..g], line[g + 2..]))
  {
    assert Contains(line, "] <") && Contains(line, ">");
    assert SliceFields(line) == Cut(line, d, d + 2, g, g);
  }

  /** The first "] <" and the first "> " of such a line are at `d` and `g`. */
  lemma MarkerIndexes(line: String, d: nat, g: nat)
    requires 1 <= d && d + 3 <= g
    requires OccursAt(line, "] <", d) && OccursAt(line, "> ", g)
    requires forall j :: 0 <= j < d + 2 ==> line[j] != '<'
    requires forall j :: 0 <= j < g ==> line[j] != '>'
    ensures Index(line, "] <") == d && Index(line, "> ") == g
  {
    forall j | 0 <= j < d ensures !OccursAt(line, "] <", j) {
      OccursAtPos(line, "] <", j, 2);
    }
    forall j | 0 <= j < g ensures !OccursAt(line, "> ", j) {
      OccursAtPos(line, "> ", j, 0);
    }
    IndexIs(line, "] <", d);
    IndexIs(line, "> ", g);
  }

  /** The first '<' and the first '>' of such a line are at `d + 2` and `g`. */
  lemma MarkerCharIndexes(line: String, d: nat, g: nat)
    requires 1 <= d && d + 3 <= g
    requires OccursAt(line, "] <", d) && OccursAt(line, "> ", g)
    requires forall j :: 0 <= j < d + 2 ==> line[j] != '<'
    requires forall j :: 0 <= j < g ==> line[j] != '>'
    ensures Index(line, "<") == d + 2 && Index(line, ">") == g
  {
    OccursAtPos(line, "] <", d, 2);
    OccursAtPos(line, "> ", g, 0);
    forall j | 0 <= j < g ensures !OccursAt(line, ">", j) {
      OccursAtChar(line, '>', j);
    }
    forall j | 0 <= j < d + 2 ensures !OccursAt(line, "<", j) {
      OccursAtChar(line, '<', j);
    }
    OccursAtChar(line, '<', d + 2);
    OccursAtChar(line, '>', g);
    IndexIs(line, "<", d + 2);
    IndexIs(line, ">", g);
  }

  /**
   * Slicing inverts formatting: a line laid out from a date without '<' or
   * '>' and a sender without '>' is a chat line whose fields are exactly
   * the date, sender and content it was made from.
   */
  lemma SliceFormatted(date: String, sender: String, content: String)
    requires '<' !in date && '>' !in date && '>' !in sender
    ensures IsChatLine(FormatChatLine(date, sender, content))
    ensures SliceFields(FormatChatLine(date, sender, content)) == Some(Fields(date, sender, content))
  {
    var line := FormatChatLine(date, sender, content);
    var d := 1 + |date|;
    var g := d + 3 + |sender|;
    FormattedMarkers(date, sender, content);
    assert line[1..d] == date && line[d + 3..g] == sender && line[g + 2..] == content;
    SliceAtMarkers(line, d, g);
  }

  /**
   * A formatted chat line whose date parses contributes exactly the message
   * it was formatted from.
   */
  lemma ClassifyFormatted<T>(date: String, sender: String, content: String, parseTime: String -> Option<T>)
    requires '<' !in date && '>' !in date && '>' !in sender
    ensures parseTime(date).Some? ==>
      Classify(FormatChatLine(date, sender, content), parseTime) == Emit(Message(parseTime(date).value, sender, content))
    ensures parseTime(date).None? ==> Classify(FormatChatLine(date, sender, content), parseTime) == Stop
  {
    SliceFormatted(date, sender, content);
  }
}

/** `LogEntry`: one record of the application log and its text form. The
    timestamp is taken already formatted ("HH:mm:ss"), and an exception is
    taken as the text its `ToString()` produces. */
module LogEntries {
  import opened Wrappers
  import opened Text

  datatype Severity = NoSeverity | Low | Medium | High | Critical

  /** The enum member's name, as string interpolation writes it. */
  function SeverityName(s: Severity): (r: string)
    ensures |r| > 0 && '*' !in r && '\n' !in r && '{' !in r && '}' !in r
  {
    match s
    case NoSeverity => "None"
    case Low => "Low"
    case Medium => "Medium"
    case High => "High"
    case Critical => "Critical"
  }

  /** The severity a shown name stands for. */
  function SeverityNamed(name: string): (r: Option<Severity>)
    ensures r.Some? ==> SeverityName(r.value) == name
  {
    if name == "None" then Some(NoSeverity)
    else if name == "Low" then Some(Low)
    else if name == "Medium" then Some(Medium)
    else if name == "High" then Some(High)
    else if name == "Critical" then Some(Critical)
    else None
  }

  lemma SeverityNameRoundTrip(s: Severity)
    ensures SeverityNamed(SeverityName(s)) == Some(s)
  {
  }

  /** An entry. `exceptionText` matters only when `isException`; an empty
      `message` stands for both null and "". */
  datatype LogEntry = LogEntry(
    isException: bool, exceptionText: string, caption: string, message: string,
    severity: Severity, timestamp: string, isLogOnly: bool)

  /** The plain constructor: no exception. */
  function Plain(caption: string, severity: Severity, isLogOnly: bool, message: string, timestamp: string): (e: LogEntry)
    ensures !e.isException
    ensures e.caption == caption && e.message == message && e.severity == severity
    ensures e.timestamp == timestamp && e.isLogOnly == isLogOnly
  {
    LogEntry(false, "", caption, message, severity, timestamp, isLogOnly)
  }

  /** The exception constructor: the same entry, marked as an exception and
      carrying the exception. */
  function OfException(exceptionText: string, caption: string, severity: Severity, isLogOnly: bool,
                       message: string, timestamp: string): (e: LogEntry)
    ensures e.isException && e.exceptionText == exceptionText
    ensures e == Plain(caption, severity, isLogOnly, message, timestamp).(isException := true, exceptionText := exceptionText)
  {
    LogEntry(true, exceptionText, caption, message, severity, timestamp, isLogOnly)
  }

  /** `Environment.NewLine` on Windows, where the application runs. */
  const NewLine: string := "\r\n"

  /** "[HH:mm:ss] " */
  function Stamp(e: LogEntry): string {
    "[" + e.timestamp + "] "
  }

  /** Whether `ToString(printSeverity)` shows the severity. */
  predicate ShowsSeverity(e: LogEntry, printSeverity: bool) {
    e.severity != NoSeverity && printSeverity
  }

  /** "*Severity* " when shown. */
  function Tag(e: LogEntry, printSeverity: bool): string {
    if ShowsSeverity(e, printSeverity) then "*" + SeverityName(e.severity) + "* " else ""
  }

  /** "!! caption" for an exception, the caption alone otherwise. */
  function Header(e: LogEntry): string {
    if e.isException then "!! " + e.caption else e.caption
  }

  /** A new line holding " > message" when there is a message. */
  function Body(e: LogEntry): string {
    if e.message != "" then NewLine + " > " + e.message else ""
  }

  /** A new line holding the exception's text, for an exception. */
  function Footer(e: LogEntry): string {
    if e.isException then NewLine + e.exceptionText else ""
  }

  /** `ToString(printSeverity)`: prefix, severity, header, body, footer, in
      that order. */
  function ToString(e: LogEntry, printSeverity: bool): (r: string)
    ensures IsPrefix(Stamp(e), r)
  {
    Stamp(e) + (Tag(e, printSeverity) + Header(e) + Body(e) + Footer(e))
  }

  /** An exception entry ends with a line holding the exception's text. */
  lemma ExceptionEndsWithItsText(e: LogEntry, printSeverity: bool)
    requires e.isException
    ensures var r := ToString(e, printSeverity);
      |r| >= |NewLine + e.exceptionText| && r[|r| - |NewLine + e.exceptionText|..] == NewLine + e.exceptionText
  {
    var tag := Tag(e, printSeverity);
    AppendAssociates(tag + Header(e), Body(e), Footer(e));
    AppendAssociates(Stamp(e), tag + Header(e) + Body(e), Footer(e));
    AppendParts(Stamp(e) + (tag + Header(e) + Body(e)), Footer(e));
  }

  /** The number of `c` in `s`. */
  function Count(s: string, c: char): (n: nat)
    ensures n <= |s|
    ensures c !in s ==> n == 0
  {
    if s == [] then 0 else (if s[0] == c then 1 else 0) + Count(s[1..], c)
  }

  lemma {:induction false} CountConcat(a: string, b: string, c: char)
    ensures Count(a + b, c) == Count(a, c) + Count(b, c)
    decreases |a|
  {
    if a != [] {
      assert (a + b)[0] == a[0];
      assert (a + b)[1..] == a[1..] + b;
      CountConcat(a[1..], b, c);
    } else {
      assert a + b == b;
    }
  }

  lemma CountTag(e: LogEntry, printSeverity: bool)
    ensures Count(Tag(e, printSeverity), '\n') == 0
  {
    if ShowsSeverity(e, printSeverity) {
      assert '\n' !in "*" + SeverityName(e.severity) + "* ";
    }
  }

  lemma CountHeader(e: LogEntry)
    ensures Count(Header(e), '\n') == Count(e.caption, '\n')
  {
    CountConcat("!! ", e.caption, '\n');
  }

  lemma CountBody(e: LogEntry)
    ensures Count(Body(e), '\n') == if e.message != "" then 1 + Count(e.message, '\n') else 0
  {
    assert Count(NewLine + " > ", '\n') == 1;
    CountConcat(NewLine + " > ", e.message, '\n');
  }

  lemma CountFooter(e: LogEntry)
    ensures Count(Footer(e), '\n') == if e.isException then 1 + Count(e.exceptionText, '\n') else 0
  {
    assert Count(NewLine, '\n') == 1;
    CountConcat(NewLine, e.exceptionText, '\n');
  }

  /** The text form has one line break more than its parts for the message
      line when there is a message, and one more for the exception line when
      there is an exception. */
  lemma LineBreaks(e: LogEntry, printSeverity: bool)
    ensures Count(ToString(e, printSeverity), '\n') == Count(e.timestamp, '\n') + Count(e.caption, '\n')
      + (if e.message != "" then 1 + Count(e.message, '\n') else 0)
      + (if e.isException then 1 + Count(e.exceptionText, '\n') else 0)
  {
    CountStamp(e);
    CountTag(e, printSeverity);
    CountHeader(e);
    CountBody(e);
    CountFooter(e);
    CountParts(Stamp(e), Tag(e, printSeverity), Header(e), Body(e), Footer(e), '\n');
  }

  lemma CountStamp(e: LogEntry)
    ensures Count(Stamp(e), '\n') == Count(e.timestamp, '\n')
  {
    CountConcat("[", e.timestamp, '\n');
    CountConcat("[" + e.timestamp, "] ", '\n');
  }

  lemma CountParts(p1: string, p2: string, p3: string, p4: string, p5: string, c: char)
    ensures Count(p1 + (p2 + p3 + p4 + p5), c) == Count(p1, c) + Count(p2, c) + Count(p3, c) + Count(p4, c) + Count(p5, c)
  {
    CountConcat(p2, p3, c);
    CountConcat(p2 + p3, p4, c);
    CountConcat(p2 + p3 + p4, p5, c);
    CountConcat(p1, p2 + p3 + p4 + p5, c);
  }

  // ----- Reading an entry back -----

  /** What the text form of an entry shows: the timestamp, the severity if
      shown, whether it is an exception, the caption, the message and the
      exception's text ("" for a plain entry). */
  datatype Shown = Shown(timestamp: string, severity: Option<Severity>, isException: bool,
                         caption: string, message: string, exceptionText: string)

  function View(e: LogEntry, printSeverity: bool): Shown {
    Shown(e.timestamp, if ShowsSeverity(e, printSeverity) then Some(e.severity) else None,
          e.isException, e.caption, e.message, if e.isException then e.exceptionText else "")
  }

  /** The entries whose text form can be read back: the timestamp has no
      ']', caption and message have no carriage return, a plain caption does
      not start like a severity tag or an exception marker, and an exception's
      text does not start like a message line. */
  predicate Readable(e: LogEntry) {
    && ']' !in e.timestamp
    && '\r' !in e.caption && '\r' !in e.message
    && (!e.isException ==> !IsPrefix("*", e.caption) && !IsPrefix("!! ", e.caption))
    && (e.isException ==> !IsPrefix(" > ", e.exceptionText))
  }

  /** The position of the first `c` in `s`, or `|s|`. */
  function IndexOf(s: string, c: char): (k: nat)
    ensures k <= |s| && c !in s[..k] && (k < |s| ==> s[k] == c)
  {
    if s == [] then 0
    else if s[0] == c then 0
    else 1 + IndexOf(s[1..], c)
  }

  lemma {:induction false} IndexOfAfter(a: string, b: string, c: char)
    requires c !in a && (b == [] || b[0] == c)
    ensures IndexOf(a + b, c) == |a|
    decreases |a|
  {
    if a != [] {
      assert (a + b)[0] == a[0];
      assert (a + b)[1..] == a[1..] + b;
      IndexOfAfter(a[1..], b, c);
    }
  }

  /** Reads the "*Severity* " tag, if any, off the front of `s`. */
  function ReadTag(s: string): Option<(Option<Severity>, string)> {
    if |s| > 0 && s[0] == '*' then
      var j := IndexOf(s[1..], '*');
      if j + 2 < |s| && s[j + 2] == ' ' then
        match SeverityNamed(s[1..j + 1])
        case Some(sev) => Some((Some(sev), s[j + 3..]))
        case None => None
      else None
    else Some((None, s))
  }

  /** Reads the message line and the exception line, given the text after
      the caption. */
  function ReadTail(isException: bool, s: string): Option<(string, string)> {
    var (message, rest) :=
      if IsPrefix(NewLine + " > ", s) then
        var m := IndexOf(s[5..], '\r');
        (s[5..5 + m], s[5 + m..])
      else ("", s);
    if isException then
      if IsPrefix(NewLine, rest) then Some((message, rest[2..])) else None
    else if rest == "" then Some((message, "")) else None
  }

  /** Reads the exception marker, the caption, the message line and the
      exception line, given the text after the severity tag. */
  function ReadEntry(s: string): Option<(bool, string, string, string)> {
    var isException := IsPrefix("!! ", s);
    var header := if isException then s[3..] else s;
    var c := IndexOf(header, '\r');
    match ReadTail(isException, header[c..])
    case None => None
    case Some((message, exceptionText)) => Some((isException, header[..c], message, exceptionText))
  }

  /** Reads the text form of an entry back. */
  function Read(r: string): Option<Shown> {
    if |r| == 0 || r[0] != '[' then None
    else
      var k := IndexOf(r, ']');
      if k + 1 >= |r| || r[k + 1] != ' ' then None
      else
        match ReadTag(r[k + 2..])
        case None => None
        case Some((severity, afterTag)) =>
          match ReadEntry(afterTag)
          case None => None
          case Some((isException, caption, message, exceptionText)) =>
            Some(Shown(r[1..k], severity, isException, caption, message, exceptionText))
  }

  lemma ReadTagOf(e: LogEntry, printSeverity: bool, rest: string)
    requires Readable(e) && rest == Header(e) + Body(e) + Footer(e)
    ensures ReadTag(Tag(e, printSeverity) + rest)
      == Some((if ShowsSeverity(e, printSeverity) then Some(e.severity) else None, rest))
  {
    var s := Tag(e, printSeverity) + rest;
    if ShowsSeverity(e, printSeverity) {
      var name := SeverityName(e.severity);
      assert s == "*" + (name + ("* " + rest));
      assert s[1..] == name + ("* " + rest);
      IndexOfAfter(name, "* " + rest, '*');
      assert s[1..|name| + 1] == name;
      assert s[|name| + 2] == ' ';
      assert s[|name| + 3..] == rest;
      SeverityNameRoundTrip(e.severity);
    } else {
      assert s == rest;
      if e.isException {
        assert rest[0] == '!';
      } else if |e.caption| > 0 {
        assert rest[0] == e.caption[0];
        assert !IsPrefix("*", e.caption);
        assert e.caption[..1] != "*";
      } else if e.message != "" {
        assert rest[0] == '\r';
      } else {
        assert rest == "";
      }
    }
  }

  lemma ReadTailOf(e: LogEntry)
    requires Readable(e)
    ensures ReadTail(e.isException, Body(e) + Footer(e))
      == Some((e.message, if e.isException then e.exceptionText else ""))
  {
    var s := Body(e) + Footer(e);
    if e.message != "" {
      assert s == NewLine + " > " + (e.message + Footer(e));
      assert IsPrefix(NewLine + " > ", s);
      assert s[5..] == e.message + Footer(e);
      if e.isException {
        IndexOfAfter(e.message, Footer(e), '\r');
      } else {
        IndexOfAfter(e.message, "", '\r');
      }
      assert s[5..5 + |e.message|] == e.message;
      assert s[5 + |e.message|..] == Footer(e);
    } else {
      assert s == Footer(e);
      if e.isException {
        assert s == NewLine + e.exceptionText;
        if |s| >= 5 {
          assert s[..5][2..] == e.exceptionText[..3];
        }
      }
    }
  }

  lemma ReadEntryOf(e: LogEntry)
    requires Readable(e)
    ensures ReadEntry(Header(e) + Body(e) + Footer(e))
      == Some((e.isException, e.caption, e.message, if e.isException then e.exceptionText else ""))
  {
    var rest := Header(e) + Body(e) + Footer(e);
    var tail := Body(e) + Footer(e);
    assert rest == Header(e) + tail;
    var isException := IsPrefix("!! ", rest);
    assert isException == e.isException by {
      if e.isException {
        assert rest == "!! " + (e.caption + tail);
      } else if |e.caption| >= 3 {
        assert rest[..3] == e.caption[..3];
      } else if |rest| >= 3 {
        assert tail == [] || tail[0] == '\r';
        assert rest[|e.caption|] == tail[0];
      }
    }
    var header := if isException then rest[3..] else rest;
    assert header == e.caption + tail;
    IndexOfAfter(e.caption, tail, '\r');
    assert header[..|e.caption|] == e.caption;
    assert header[|e.caption|..] == tail;
    ReadTailOf(e);
  }

  lemma ReadStamp(timestamp: string, rest: string)
    requires ']' !in timestamp
    ensures var r := "[" + timestamp + "] " + rest;
      && IndexOf(r, ']') == |timestamp| + 1
      && r[1..|timestamp| + 1] == timestamp
      && r[|timestamp| + 2] == ' '
      && r[|timestamp| + 3..] == rest
  {
    var r := "[" + timestamp + "] " + rest;
    assert r == ("[" + timestamp) + ("] " + rest);
    IndexOfAfter("[" + timestamp, "] " + rest, ']');
  }

  /** Every readable entry is read back from its text form as it shows it:
      the text form loses nothing but the hidden severity and, for a plain
      entry, the unused exception. */
  lemma {:induction false} ReadToString(e: LogEntry, printSeverity: bool)
    requires Readable(e)
    ensures Read(ToString(e, printSeverity)) == Some(View(e, printSeverity))
  {
    var rest := Header(e) + Body(e) + Footer(e);
    var afterStamp := Tag(e, printSeverity) + rest;
    var tag := Tag(e, printSeverity);
    AppendAssociates(tag + Header(e), Body(e), Footer(e));
    AppendAssociates(tag, Header(e), Body(e) + Footer(e));
    AppendAssociates(Header(e), Body(e), Footer(e));
    ReadStamp(e.timestamp, afterStamp);
    ReadTagOf(e, printSeverity, rest);
    ReadEntryOf(e);
  }
}

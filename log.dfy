/** `Log`: the application log. Before it is started every entry is printed
    at once; once started, entries are queued and a background task drains
    the queue into the day's log file and onto the console. Console output
    is coloured by markup in the text: `Red{` switches to a colour and `}`
    switches back to the entry's default colour. The console, the debug
    output and the log file are fields that record what was written. */
module Logging {
  import opened Wrappers
  import opened Text
  import opened LogEntries

  /** `ConsoleColor`, in the order of its values. */
  datatype Color =
    | Black | DarkBlue | DarkGreen | DarkCyan | DarkRed | DarkMagenta | DarkYellow | Gray
    | DarkGray | Blue | Green | Cyan | Red | Magenta | Yellow | White

  function ColorName(c: Color): (r: string)
    ensures |r| >= 3 && '{' !in r && '}' !in r && 'A' <= r[0] <= 'Z'
  {
    match c
    case Black => "Black"
    case DarkBlue => "DarkBlue"
    case DarkGreen => "DarkGreen"
    case DarkCyan => "DarkCyan"
    case DarkRed => "DarkRed"
    case DarkMagenta => "DarkMagenta"
    case DarkYellow => "DarkYellow"
    case Gray => "Gray"
    case DarkGray => "DarkGray"
    case Blue => "Blue"
    case Green => "Green"
    case Cyan => "Cyan"
    case Red => "Red"
    case Magenta => "Magenta"
    case Yellow => "Yellow"
    case White => "White"
  }

  /** The colour an entry is printed in unless its text switches colour. */
  function DefaultColor(s: Severity): Color {
    match s
    case Low => DarkGray
    case Medium => White
    case High => DarkYellow
    case Critical => Red
    case NoSeverity => Gray
  }

  /** Different severities are printed in different colours. */
  lemma DefaultColorsDiffer(s: Severity, t: Severity)
    requires s != t
    ensures DefaultColor(s) != DefaultColor(t)
  {
  }

  // ----- The colour pattern -----

  /** The name in lower case, as an ignore-case comparison sees it. */
  function LowerName(c: Color): (r: string)
    ensures |r| >= 3 && '{' !in r && '}' !in r
  {
    match c
    case Black => "black"
    case DarkBlue => "darkblue"
    case DarkGreen => "darkgreen"
    case DarkCyan => "darkcyan"
    case DarkRed => "darkred"
    case DarkMagenta => "darkmagenta"
    case DarkYellow => "darkyellow"
    case Gray => "gray"
    case DarkGray => "darkgray"
    case Blue => "blue"
    case Green => "green"
    case Cyan => "cyan"
    case Red => "red"
    case Magenta => "magenta"
    case Yellow => "yellow"
    case White => "white"
  }

  /** The values of `ConsoleColor`, in order. */
  const Colors: seq<Color> :=
    [Black, DarkBlue, DarkGreen, DarkCyan, DarkRed, DarkMagenta, DarkYellow, Gray,
     DarkGray, Blue, Green, Cyan, Red, Magenta, Yellow, White]

  /** `name` is the colour's name; ignoring case, `name` is already in lower
      case. */
  predicate Names(name: string, c: Color, ignoreCase: bool) {
    name == if ignoreCase then LowerName(c) else ColorName(c)
  }

  /** The first of `colors` that `name` names. */
  function FindColor(name: string, ignoreCase: bool, colors: seq<Color>): Option<Color>
  {
    if colors == [] then None
    else if Names(name, colors[0], ignoreCase) then Some(colors[0])
    else FindColor(name, ignoreCase, colors[1..])
  }

  /** What is found is named by `name`. */
  lemma {:induction false} FindColorSound(name: string, ignoreCase: bool, colors: seq<Color>)
    ensures var r := FindColor(name, ignoreCase, colors);
      r.Some? ==> Names(name, r.value, ignoreCase)
  {
    if colors != [] && !Names(name, colors[0], ignoreCase) {
      FindColorSound(name, ignoreCase, colors[1..]);
    }
  }

  /** A name of one of `colors` is found among them. */
  lemma {:induction false} FindColorFinds(name: string, ignoreCase: bool, colors: seq<Color>, c: Color)
    requires c in colors && Names(name, c, ignoreCase)
    ensures FindColor(name, ignoreCase, colors).Some?
  {
    if !Names(name, colors[0], ignoreCase) {
      FindColorFinds(name, ignoreCase, colors[1..], c);
    }
  }

  /** `Enum.TryParse<ConsoleColor>(name, ignoreCase)` on a colour name: the
      colour `name` names, exactly or ignoring case. */
  function ColorNamed(name: string, ignoreCase: bool): Option<Color>
  {
    FindColor(if ignoreCase then Lower(name) else name, ignoreCase, Colors)
  }

  lemma InColors(c: Color)
    ensures c in Colors
  {
    match c
    case Black => assert Colors[0] == c;
    case DarkBlue => assert Colors[1] == c;
    case DarkGreen => assert Colors[2] == c;
    case DarkCyan => assert Colors[3] == c;
    case DarkRed => assert Colors[4] == c;
    case DarkMagenta => assert Colors[5] == c;
    case DarkYellow => assert Colors[6] == c;
    case Gray => assert Colors[7] == c;
    case DarkGray => assert Colors[8] == c;
    case Blue => assert Colors[9] == c;
    case Green => assert Colors[10] == c;
    case Cyan => assert Colors[11] == c;
    case Red => assert Colors[12] == c;
    case Magenta => assert Colors[13] == c;
    case Yellow => assert Colors[14] == c;
    case White => assert Colors[15] == c;
  }

  /** Every colour's name names a colour. */
  lemma NamesItsColor(c: Color)
    ensures ColorNamed(ColorName(c), false).Some?
  {
    InColors(c);
    FindColorFinds(ColorName(c), false, Colors, c);
  }

  /** A text holding a brace, or shorter than every colour name, names no
      colour; with case, neither does one that does not start with a capital
      letter. */
  lemma NamesNoColor(name: string)
    requires '}' in name || '{' in name || |name| < 3 || !('A' <= name[0] <= 'Z')
    ensures ColorNamed(name, false).None?
  {
    FindColorSound(name, false, Colors);
  }

  /** The length of the match of the colour pattern `(Black{)|...|(White{)|(})`
      at the front of `s`, 0 when it does not match there. Colour names hold
      no brace, so a colour alternative matches exactly when the text before
      the first '{' names a colour. */
  function TokenLength(s: string, ignoreCase: bool): (n: nat)
    ensures n <= |s|
  {
    var k := IndexOf(s, '{');
    if k < |s| && ColorNamed(s[..k], ignoreCase).Some? then k + 1
    else if |s| > 0 && s[0] == '}' then 1
    else 0
  }

  /** A token at the front is matched whole. */
  lemma TokenLengthOfToken(c: Color, s: string)
    ensures TokenLength(ColorName(c) + "{" + s, false) == |ColorName(c)| + 1
  {
    var t := ColorName(c) + "{" + s;
    assert t == ColorName(c) + ("{" + s);
    IndexOfAfter(ColorName(c), "{" + s, '{');
    assert t[..|ColorName(c)|] == ColorName(c);
    NamesItsColor(c);
  }

  /** `Regex.Replace(output, colorPattern, "")`: every match, found left to
      right without rescanning, is removed. The pattern is matched with
      case. */
  function Strip(s: string): (r: string)
    ensures |r| <= |s|
    decreases |s|
  {
    if s == [] then []
    else
      var n := TokenLength(s, false);
      if n > 0 then Strip(s[n..]) else [s[0]] + Strip(s[1..])
  }

  /** No closing brace survives stripping. */
  lemma {:induction false} StripRemovesClosing(s: string)
    ensures '}' !in Strip(s)
    decreases |s|
  {
    if s != [] {
      var n := TokenLength(s, false);
      if n > 0 {
        StripRemovesClosing(s[n..]);
      } else {
        StripRemovesClosing(s[1..]);
      }
    }
  }

  /** Text without braces holds no token and is left as it is. */
  lemma {:induction false} StripPlainText(s: string)
    requires '{' !in s && '}' !in s
    ensures Strip(s) == s
    decreases |s|
  {
    if s != [] {
      assert TokenLength(s, false) == 0;
      StripPlainText(s[1..]);
      assert s == [s[0]] + s[1..];
    }
  }

  /** A token at the front is removed whole. */
  lemma StripToken(c: Color, s: string)
    ensures Strip(ColorName(c) + "{" + s) == Strip(s)
  {
    var t := ColorName(c) + "{" + s;
    TokenLengthOfToken(c, s);
    assert t[|ColorName(c)| + 1..] == s;
  }

  lemma StripKeeps(s: string)
    requires s != [] && TokenLength(s, false) == 0
    ensures Strip(s) == [s[0]] + Strip(s[1..])
  {
  }

  /** Removal does not rescan: in "Re}d{" the closing brace is removed and
      leaves the token "Red{", which a second stripping would remove. */
  lemma StripIsNotIdempotent(s: string)
    requires |s| == 5 && s[0] == 'R' && s[1] == 'e' && s[2] == '}' && s[3] == 'd' && s[4] == '{'
    ensures Strip(s) == s[..2] + s[3..]
    ensures Strip(Strip(s)) == ""
  {
    ReKept(s);
    ClosingDropped(s[2..]);
    assert s[2..][1..] == s[3..];
    var t := s[..2] + s[3..];
    assert |t| == 4 && t[0] == 'R' && t[1] == 'e' && t[2] == 'd' && t[3] == '{';
    RedStripped(t);
  }

  lemma RedStripped(t: string)
    requires |t| == 4 && t[0] == 'R' && t[1] == 'e' && t[2] == 'd' && t[3] == '{'
    ensures Strip(t) == ""
  {
    var none: string := [];
    assert t == ColorName(Red) + "{" + none;
    StripToken(Red, none);
  }

  lemma ReKept(s: string)
    requires |s| == 5 && s[0] == 'R' && s[1] == 'e' && s[2] == '}' && s[3] == 'd' && s[4] == '{'
    ensures Strip(s) == s[..2] + Strip(s[2..])
  {
    assert s[..4][2] == '}';
    NamesNoColor(s[..4]);
    StripKeeps(s);
    assert s[1..][..3][1] == '}';
    NamesNoColor(s[1..][..3]);
    StripKeeps(s[1..]);
    assert s[..2] == [s[0]] + [s[1]];
  }

  lemma ClosingDropped(s: string)
    requires |s| == 3 && s[0] == '}' && s[1] == 'd' && s[2] == '{'
    ensures Strip(s) == s[1..]
  {
    assert Strip(s) == Strip(s[1..]) by {
      assert s[..2][0] == '}';
      NamesNoColor(s[..2]);
    }
    NamesNoColor(s[1..][..1]);
    StripKeeps(s[1..]);
    NamesNoColor(s[2..][..0]);
    StripKeeps(s[2..]);
    assert s[3..] == [];
    assert s[1..] == [s[1]] + [s[2]];
  }

  /** The plain form strips the pattern with case, the console form splits
      it without: "red{" is kept in the file but switches colour on the
      console. */
  lemma LowerCaseTokenKept(s: string)
    requires |s| == 4 && s[0] == 'r' && s[1] == 'e' && s[2] == 'd' && s[3] == '{'
    ensures Strip(s) == s
    ensures TokenLength(s, true) == |s|
  {
    LowerRedKept(s);
    LowerRedMatches(s);
  }

  lemma LowerRedKept(s: string)
    requires |s| == 4 && s[0] == 'r' && s[1] == 'e' && s[2] == 'd' && s[3] == '{'
    ensures Strip(s) == s
  {
    NamesNoColor(s[..3]);
    NamesNoColor(s[1..][..2]);
    NamesNoColor(s[2..][..1]);
    NamesNoColor(s[3..][..0]);
    StripKeeps(s);
    StripKeeps(s[1..]);
    StripKeeps(s[2..]);
    StripKeeps(s[3..]);
    assert s[4..] == [];
    assert s == [s[0]] + ([s[1]] + ([s[2]] + [s[3]]));
  }

  lemma LowerRedMatches(s: string)
    requires |s| == 4 && s[0] == 'r' && s[1] == 'e' && s[2] == 'd' && s[3] == '{'
    ensures IndexOf(s, '{') == 3 && ColorNamed(s[..3], true).Some?
  {
    assert s == s[..3] + "{";
    IndexOfAfter(s[..3], "{", '{');
    var name := Lower(s[..3]);
    assert |name| == 3 && name[0] == 'r' && name[1] == 'e' && name[2] == 'd';
    assert name == LowerName(Red);
    InColors(Red);
    FindColorFinds(name, true, Colors, Red);
  }

  /** The pieces of `Regex.Split(s, pattern)` after the text `pending`
      already read, where `token` gives the length of the match at the front
      of a text (0 for none): the texts between matches, each followed by
      the match itself, since every alternative of the colour pattern is a
      capturing group. A match never runs past the end of the text. */
  function SplitFrom(s: string, pending: string, token: string -> nat): (r: seq<string>)
    decreases |s|
  {
    if s == [] then [pending]
    else
      var n := token(s);
      if 0 < n <= |s| then [pending, s[..n]] + SplitFrom(s[n..], "", token)
      else SplitFrom(s[1..], pending + [s[0]], token)
  }

  /** The colour pattern, matched ignoring case. */
  function ColorToken(): string -> nat {
    t => TokenLength(t, true)
  }

  /** `Regex.Split(output, colorPattern, RegexOptions.IgnoreCase)`. */
  function Split(s: string): seq<string> {
    SplitFrom(s, "", ColorToken())
  }

  function Join(pieces: seq<string>): string {
    if pieces == [] then "" else pieces[0] + Join(pieces[1..])
  }

  lemma {:induction false} JoinAppend(a: seq<string>, b: seq<string>)
    ensures Join(a + b) == Join(a) + Join(b)
    decreases |a|
  {
    if a == [] {
      assert a + b == b;
    } else {
      assert (a + b)[0] == a[0];
      assert (a + b)[1..] == a[1..] + b;
      JoinAppend(a[1..], b);
    }
  }

  /** The match at the front of `s` matches on its own too. */
  lemma TokenLengthOfPrefix(s: string, n: nat)
    requires n == TokenLength(s, true) > 0
    ensures TokenLength(s[..n], true) == n
  {
    var t := s[..n];
    var k := IndexOf(s, '{');
    if k < |s| && ColorNamed(s[..k], true).Some? {
      assert t == s[..k] + "{";
      IndexOfAfter(s[..k], "{", '{');
      assert t[..k] == s[..k];
    } else {
      assert t == "}";
      assert IndexOf(t, '{') == 1;
    }
  }

  /** Splitting loses nothing: the pieces put back together are the text. */
  lemma {:induction false} SplitFromJoins(s: string, pending: string, token: string -> nat)
    ensures Join(SplitFrom(s, pending, token)) == pending + s
    decreases |s|
  {
    if s == [] {
      assert Join(SplitFrom(s, pending, token)) == pending + Join([]);
    } else {
      var n := token(s);
      if 0 < n <= |s| {
        var rest := SplitFrom(s[n..], "", token);
        SplitFromJoins(s[n..], "", token);
        assert "" + s[n..] == s[n..];
        JoinPair(pending, s[..n], rest, s[n..]);
        TakeDrop(s, n);
      } else {
        SplitFromJoins(s[1..], pending + [s[0]], token);
        AppendAssociates(pending, [s[0]], s[1..]);
        TakeDrop(s, 1);
      }
    }
  }

  lemma JoinPair(a: string, b: string, rest: seq<string>, tail: string)
    requires Join(rest) == tail
    ensures Join([a, b] + rest) == a + (b + tail)
  {
    var head := [a, b];
    assert Join(head) == a + b by {
      assert head[1..] == [b] && head[1..][1..] == [];
      assert b + Join([]) == b;
    }
    JoinAppend(head, rest);
    AppendAssociates(a, b, tail);
  }

  /** A pattern whose match at the front of a text matches on its own too. */
  ghost predicate SelfMatching(token: string -> nat) {
    forall t :: 0 < token(t) <= |t| ==> token(t[..token(t)]) == token(t)
  }

  /** There is one piece more than there are matches, and every second
      piece is a match of the pattern. */
  lemma {:induction false} SplitFromAlternates(s: string, pending: string, token: string -> nat)
    requires SelfMatching(token)
    ensures |SplitFrom(s, pending, token)| % 2 == 1
    ensures forall i :: 0 <= i < |SplitFrom(s, pending, token)| && i % 2 == 1 ==>
      0 < token(SplitFrom(s, pending, token)[i]) == |SplitFrom(s, pending, token)[i]|
    decreases |s|
  {
    if s != [] {
      var n := token(s);
      if 0 < n <= |s| {
        var r := SplitFrom(s, pending, token);
        var rest := SplitFrom(s[n..], "", token);
        assert r == [pending, s[..n]] + rest;
        SplitFromAlternates(s[n..], "", token);
        forall i | 0 <= i < |r| && i % 2 == 1
          ensures 0 < token(r[i]) == |r[i]|
        {
          if i > 1 {
            assert r[i] == rest[i - 2];
          }
        }
      } else {
        SplitFromAlternates(s[1..], pending + [s[0]], token);
      }
    }
  }

  lemma ColorTokenSelfMatching()
    ensures SelfMatching(ColorToken())
  {
    forall t | 0 < ColorToken()(t) <= |t|
      ensures ColorToken()(t[..ColorToken()(t)]) == ColorToken()(t)
    {
      TokenLengthOfPrefix(t, TokenLength(t, true));
    }
  }

  /** Splitting the console form by the colour pattern: the pieces put
      back together are the text, and every second piece is a whole colour
      token. */
  lemma SplitJoins(s: string)
    ensures Join(Split(s)) == s
    ensures |Split(s)| % 2 == 1
    ensures forall i :: 0 <= i < |Split(s)| && i % 2 == 1 ==>
      0 < TokenLength(Split(s)[i], true) == |Split(s)[i]|
  {
    SplitFromJoins(s, "", ColorToken());
    ColorTokenSelfMatching();
    SplitFromAlternates(s, "", ColorToken());
  }

  // ----- Rendering an entry -----

  /** `CreateString`: the entry's text, the severity shown in the plain form
      only; before the log is started, the entry's full text followed by its
      severity (unless None) and " [NO LOG]". The plain form has the colour
      markup removed. */
  function CreateString(e: LogEntry, keepColor: bool, started: bool): string
  {
    var output :=
      if started then ToString(e, !keepColor)
      else if e.severity == NoSeverity then ToString(e, true) + " [NO LOG]"
      else ToString(e, true) + " *" + SeverityName(e.severity) + "* [NO LOG]";
    if keepColor then output else Strip(output)
  }

  /** Once started, the console form hides the severity and the plain form
      shows it; a readable entry without braces in its text is read back from
      the plain form exactly as it shows itself. */
  lemma StartedForms(e: LogEntry)
    requires Readable(e)
    ensures Read(CreateString(e, true, true)) == Some(View(e, false))
    ensures Read(CreateString(e, true, true)).value.severity.None?
    ensures NoBraces(e) ==> Read(CreateString(e, false, true)) == Some(View(e, true))
  {
    ReadToString(e, false);
    ReadToString(e, true);
    if NoBraces(e) {
      NoBracesToString(e, true);
      StripPlainText(ToString(e, true));
    }
  }

  /** No brace anywhere in the entry's text. */
  predicate NoBraces(e: LogEntry) {
    && '{' !in e.timestamp && '}' !in e.timestamp && '{' !in e.caption && '}' !in e.caption
    && '{' !in e.message && '}' !in e.message && '{' !in e.exceptionText && '}' !in e.exceptionText
  }

  lemma NoBracesToString(e: LogEntry, printSeverity: bool)
    requires NoBraces(e)
    ensures '{' !in ToString(e, printSeverity) && '}' !in ToString(e, printSeverity)
  {
    var stamp, tag, header, body, footer := Stamp(e), Tag(e, printSeverity), Header(e), Body(e), Footer(e);
    assert NoBrace(stamp) && NoBrace(tag) && NoBrace(header) && NoBrace(body) && NoBrace(footer);
    assert NoBrace(tag + header);
    assert NoBrace(tag + header + body);
    assert NoBrace(tag + header + body + footer);
  }

  predicate NoBrace(s: string) {
    '{' !in s && '}' !in s
  }

  /** Before the log is started, the text ends with " [NO LOG]", preceded by
      the severity when there is one, which the entry's own text shows as
      well: such a severity appears twice. */
  lemma NotStartedForm(e: LogEntry)
    ensures var r := CreateString(e, true, false);
      var suffix := if e.severity == NoSeverity then " [NO LOG]" else " *" + SeverityName(e.severity) + "* [NO LOG]";
      && |r| >= |suffix| && r[|r| - |suffix|..] == suffix
      && r[..|r| - |suffix|] == ToString(e, true)
      && (e.severity != NoSeverity ==> Tag(e, true) == "*" + SeverityName(e.severity) + "* ")
  {
    var r := CreateString(e, true, false);
    var body := ToString(e, true);
    if e.severity != NoSeverity {
      var name := SeverityName(e.severity);
      AppendAssociates(body + " *", name, "* [NO LOG]");
      AppendAssociates(body, " *", name + "* [NO LOG]");
      AppendAssociates(" *", name, "* [NO LOG]");
      AppendParts(body, " *" + name + "* [NO LOG]");
    } else {
      AppendParts(body, " [NO LOG]");
    }
  }

  // ----- Printing -----

  /** What reaches the console or the debug output: text written in a
      colour, the end of an entry's line, or a line of debug output. */
  datatype Output = Written(text: string, color: Color) | EndOfLine | DebugLine(text: string)

  /** The colour a segment switches to: it holds a '{' and, with the braces
      removed, names a colour, ignoring case. */
  function ColorSwitch(line: string): Option<Color>
  {
    if '{' in line then ColorNamed(RemoveChar(line, '{'), true) else None
  }

  /** The result of painting segments: what was written and the colour left
      on the console. */
  datatype Painted = Painted(outputs: seq<Output>, final: Color)

  /** The colour state machine of `Print` over the segments, with
      `current` the console colour and `changed` whether a colour was
      switched to. */
  function Paint(segments: seq<string>, default: Color, current: Color, changed: bool): Painted
    decreases |segments|
  {
    if segments == [] then Painted([], current)
    else
      var line := segments[0];
      match ColorSwitch(line)
      case Some(pick) => Paint(segments[1..], default, pick, true)
      case None =>
        if '}' in line && changed then Paint(segments[1..], default, default, changed)
        else
          var rest := Paint(segments[1..], default, current, changed);
          Painted([Written(line, current)] + rest.outputs, rest.final)
  }

  /** One step of `Paint` from the `k`-th segment on. */
  lemma PaintStep(segments: seq<string>, k: nat, default: Color, current: Color, changed: bool)
    requires k < |segments|
    ensures Paint(segments[k..], default, current, changed) ==
      match ColorSwitch(segments[k])
      case Some(pick) => Paint(segments[k + 1..], default, pick, true)
      case None =>
        if '}' in segments[k] && changed then Paint(segments[k + 1..], default, default, changed)
        else
          var rest := Paint(segments[k + 1..], default, current, changed);
          Painted([Written(segments[k], current)] + rest.outputs, rest.final)
  {
    assert segments[k..][0] == segments[k] && segments[k..][1..] == segments[k + 1..];
  }

  /** A segment that is neither a colour switch nor a closing brace. */
  predicate IsText(line: string) {
    ColorSwitch(line).None? && '}' !in line
  }

  /** Until a colour is switched to, every segment is written in the current
      colour, a closing brace included. */
  lemma {:induction false} PaintWithoutSwitch(segments: seq<string>, default: Color, current: Color)
    requires forall i :: 0 <= i < |segments| ==> ColorSwitch(segments[i]).None?
    ensures Paint(segments, default, current, false)
      == Painted(seq(|segments|, i requires 0 <= i < |segments| => Written(segments[i], current)), current)
    decreases |segments|
  {
    if segments != [] {
      PaintWithoutSwitch(segments[1..], default, current);
    }
  }

  /** Text after a colour switch is written in that colour; a closing brace
      then goes back to the default colour, and what follows is painted from
      there. */
  lemma PaintSwitchedRun(token: string, texts: seq<string>, close: string, rest: seq<string>,
                         default: Color, current: Color, changed: bool)
    requires ColorSwitch(token).Some?
    requires forall i :: 0 <= i < |texts| ==> IsText(texts[i])
    requires ColorSwitch(close).None? && '}' in close
    ensures Paint([token] + texts + [close] + rest, default, current, changed)
      == var after := Paint(rest, default, default, true);
         Painted(seq(|texts|, i requires 0 <= i < |texts| => Written(texts[i], ColorSwitch(token).value)) + after.outputs,
                 after.final)
  {
    var pick := ColorSwitch(token).value;
    var tail := [close] + rest;
    AppendAssociates([token] + texts, [close], rest);
    AppendAssociates([token], texts, tail);
    PaintSwitchHead(token, texts + tail, default, current, changed);
    PaintTexts(texts, tail, default, pick);
    PaintCloseHead(close, rest, default, pick);
  }

  /** A colour switch at the front: the rest is painted in that colour. */
  lemma PaintSwitchHead(token: string, rest: seq<string>, default: Color, current: Color, changed: bool)
    requires ColorSwitch(token).Some?
    ensures Paint([token] + rest, default, current, changed) == Paint(rest, default, ColorSwitch(token).value, true)
  {
    assert ([token] + rest)[1..] == rest;
  }

  /** A closing brace at the front after a switch: back to the default. */
  lemma PaintCloseHead(close: string, rest: seq<string>, default: Color, current: Color)
    requires ColorSwitch(close).None? && '}' in close
    ensures Paint([close] + rest, default, current, true) == Paint(rest, default, default, true)
  {
    assert ([close] + rest)[1..] == rest;
  }

  lemma {:induction false} PaintTexts(texts: seq<string>, tail: seq<string>, default: Color, color: Color)
    requires forall i :: 0 <= i < |texts| ==> IsText(texts[i])
    ensures Paint(texts + tail, default, color, true)
      == var after := Paint(tail, default, color, true);
         Painted(seq(|texts|, i requires 0 <= i < |texts| => Written(texts[i], color)) + after.outputs, after.final)
    decreases |texts|
  {
    if texts == [] {
      assert texts + tail == tail;
    } else {
      assert (texts + tail)[0] == texts[0];
      SliceAppend(texts, tail, 1);
      PaintTexts(texts[1..], tail, default, color);
      var more := texts[1..];
      var written := seq(|texts|, i requires 0 <= i < |texts| => Written(texts[i], color));
      var writtenMore := seq(|more|, i requires 0 <= i < |more| => Written(more[i], color));
      assert written == [Written(texts[0], color)] + writtenMore;
      AppendAssociates([Written(texts[0], color)], writtenMore, Paint(tail, default, color, true).outputs);
    }
  }

  /** What `Print` writes for an entry. */
  function Printed(e: LogEntry, started: bool, useConsole: bool): seq<Output> {
    if e.isLogOnly then []
    else if !useConsole then [DebugLine(CreateString(e, false, started))]
    else
      var default := DefaultColor(e.severity);
      Paint(Split(CreateString(e, true, started)), default, default, false).outputs + [EndOfLine]
  }

  /** The console colour `Print` leaves behind. */
  function ColorAfter(e: LogEntry, started: bool, useConsole: bool, color: Color): Color {
    if e.isLogOnly || !useConsole then color
    else
      var default := DefaultColor(e.severity);
      Paint(Split(CreateString(e, true, started)), default, default, false).final
  }

  /** The outputs of `xs`, one after the other. */
  function Concat<T, U>(xs: seq<T>, f: T -> seq<U>): seq<U> {
    if xs == [] then [] else f(xs[0]) + Concat(xs[1..], f)
  }

  lemma {:induction false} ConcatAppend<T, U>(xs: seq<T>, x: T, f: T -> seq<U>)
    ensures Concat(xs + [x], f) == Concat(xs, f) + f(x)
    decreases |xs|
  {
    if xs == [] {
      assert xs + [x] == [x];
    } else {
      assert (xs + [x])[0] == xs[0];
      assert (xs + [x])[1..] == xs[1..] + [x];
      ConcatAppend(xs[1..], x, f);
    }
  }

  /** The elements of `xs` that `keep` accepts, in order. */
  function Filter<T>(xs: seq<T>, keep: T -> bool): (r: seq<T>)
    ensures forall x :: x in r ==> x in xs && keep(x)
  {
    if xs == [] then []
    else if keep(xs[0]) then [xs[0]] + Filter(xs[1..], keep)
    else Filter(xs[1..], keep)
  }


  /** Moving the front of `q` to the end of `done` keeps their sum. */
  lemma TakeFront<T>(done: seq<T>, q: seq<T>)
    requires q != []
    ensures (done + [q[0]]) + q[1..] == done + q
  {
    assert q == [q[0]] + q[1..];
  }

  /** Elements with no output can be dropped. */
  lemma {:induction false} ConcatSkipsSilent<T, U>(xs: seq<T>, f: T -> seq<U>, keep: T -> bool)
    requires forall x :: x in xs && !keep(x) ==> f(x) == []
    ensures Concat(xs, f) == Concat(Filter(xs, keep), f)
    decreases |xs|
  {
    if xs != [] {
      ConcatSkipsSilent(xs[1..], f, keep);
      if keep(xs[0]) {
        var r := Filter(xs, keep);
        assert r[0] == xs[0] && r[1..] == Filter(xs[1..], keep);
      }
    }
  }

  /** `Print`, one entry at a time, and the line `PurgeQueue` appends to the
      file for an entry. */
  function Printer(started: bool, useConsole: bool): LogEntry -> seq<Output> {
    e => Printed(e, started, useConsole)
  }

  function FileLine(started: bool): LogEntry -> seq<string> {
    e => [CreateString(e, false, started)]
  }

  /** What printing several entries writes, and the colour left behind. */
  function PrintedAll(entries: seq<LogEntry>, started: bool, useConsole: bool): seq<Output> {
    Concat(entries, Printer(started, useConsole))
  }

  /** `f` applied to each of `xs` in turn, starting from `s`. */
  function Fold<T, S>(xs: seq<T>, f: (T, S) -> S, s: S): S
    decreases |xs|
  {
    if xs == [] then s else f(xs[|xs| - 1], Fold(xs[..|xs| - 1], f, s))
  }

  lemma FoldAppend<T, S>(xs: seq<T>, x: T, f: (T, S) -> S, s: S)
    ensures Fold(xs + [x], f, s) == f(x, Fold(xs, f, s))
  {
    assert (xs + [x])[..|xs|] == xs;
  }

  function ColorStep(started: bool, useConsole: bool): (LogEntry, Color) -> Color {
    (e, color) => ColorAfter(e, started, useConsole, color)
  }

  function ColorAfterAll(entries: seq<LogEntry>, started: bool, useConsole: bool, color: Color): Color {
    Fold(entries, ColorStep(started, useConsole), color)
  }

  /** The lines several entries append to the log file. */
  function FileLines(entries: seq<LogEntry>, started: bool): seq<string> {
    Concat(entries, FileLine(started))
  }

  /** Log-only entries never reach the console: printing a queue writes what
      printing its other entries writes. */
  lemma LogOnlyNotPrinted(entries: seq<LogEntry>, started: bool, useConsole: bool)
    ensures PrintedAll(entries, started, useConsole) == PrintedAll(Filter(entries, IsShown), started, useConsole)
  {
    ConcatSkipsSilent(entries, Printer(started, useConsole), IsShown);
  }

  function IsShown(e: LogEntry): bool {
    !e.isLogOnly
  }

  /** The entry a `CancellableTask`'s status setter writes: the owner's name
      and the new status in lower case. */
  function TaskStatusEntry(owner: string, status: string, timestamp: string): LogEntry {
    Plain("Task '" + owner + "' " + status, NoSeverity, false, "", timestamp)
  }

  /** What `IOSupport.IsDirectoryWriteable` finds: a directory it can write
      to or create; a null or empty path; or an exception, whose text its
      catch block logs before it answers false. */
  datatype DirectoryCheck = Writable | NoPath | CheckFailed(error: string)

  /** The Medium entry the check's catch block writes. */
  function CheckEntry(error: string, directoryPath: string, timestamp: string): LogEntry {
    OfException(error, "An issue occured while assessing R&W permission in " + directoryPath, Medium, false, "", timestamp)
  }

  /** The entries the check itself writes. */
  function CheckEntries(check: DirectoryCheck, directoryPath: string, timestamp: string): seq<LogEntry> {
    if check.CheckFailed? then [CheckEntry(check.error, directoryPath, timestamp)] else []
  }

  class Log {
    var started: bool
    var useConsole: bool
    /** `colorPattern` is no longer null: `Start` has built it. Until then
        every regex call on it raises an ArgumentNullException. */
    var patternBuilt: bool
    /** `logEntries`: the entries waiting to be written, oldest first. */
    var queue: seq<LogEntry>
    /** `Console.ForegroundColor`. */
    var foreground: Color
    /** The console and the debug output, in the order written. */
    var console: seq<Output>
    /** The lines appended to the log file, in the order written. */
    var file: seq<string>

    constructor()
      ensures !started && !useConsole && !patternBuilt
      ensures queue == [] && foreground == Gray && console == [] && file == []
    {
      started, useConsole, patternBuilt, queue := false, false, false, [];
      foreground, console, file := Gray, [], [];
    }

    /** `Print`: nothing for a log-only entry; the plain form to the debug
        output without a console; otherwise the segments of the coloured
        form, painted, then the end of the line. Before the colour pattern
        is built, the `Regex.Replace` of the debug branch and the
        `Regex.Split` of the console branch raise an ArgumentNullException
        (`thrown`); the console branch has already set the severity's
        colour by then. */
    method Print(e: LogEntry) returns (thrown: Option<Exception>)
      modifies this
      ensures thrown.Some? <==> !e.isLogOnly && !patternBuilt
      ensures thrown.Some? ==>
        && thrown.value == ArgumentNullException
        && console == old(console)
        && foreground == (if useConsole then DefaultColor(e.severity) else old(foreground))
      ensures thrown.None? ==>
        && console == old(console) + Printed(e, started, useConsole)
        && foreground == ColorAfter(e, started, useConsole, old(foreground))
      ensures started == old(started) && useConsole == old(useConsole) && patternBuilt == old(patternBuilt)
      ensures queue == old(queue) && file == old(file)
    {
      if e.isLogOnly {
        return None;
      }
      if !useConsole {
        if !patternBuilt {
          return Some(ArgumentNullException);
        }
        console := console + [DebugLine(CreateString(e, false, started))];
        return None;
      }
      thrown := PrintColored(e);
    }

    /** The console branch of `Print`: the severity's colour is set, then
        the entry's segments are painted from it and the line is ended;
        without a colour pattern the split raises. */
    method PrintColored(e: LogEntry) returns (thrown: Option<Exception>)
      requires !e.isLogOnly && useConsole
      modifies `console, `foreground
      ensures thrown.Some? <==> !patternBuilt
      ensures thrown.Some? ==>
        thrown.value == ArgumentNullException && console == old(console) && foreground == DefaultColor(e.severity)
      ensures thrown.None? ==>
        && console == old(console) + Printed(e, started, useConsole)
        && foreground == ColorAfter(e, started, useConsole, old(foreground))
    {
      var defaultColor := DefaultColor(e.severity);
      foreground := defaultColor;
      if !patternBuilt {
        return Some(ArgumentNullException);
      }
      var segments := Split(CreateString(e, true, started));
      ghost var p := Paint(segments, defaultColor, defaultColor, false);
      assert Printed(e, started, useConsole) == p.outputs + [EndOfLine];
      assert ColorAfter(e, started, useConsole, old(foreground)) == p.final;
      PaintSegments(segments, defaultColor);
      AppendAssociates(old(console), p.outputs, [EndOfLine]);
      console := console + [EndOfLine];
      thrown := None;
    }

    /** The `foreach` of `Print` over the segments of the coloured form,
        starting in the default colour with no colour switched to. */
    method PaintSegments(segments: seq<string>, defaultColor: Color)
      requires foreground == defaultColor
      modifies `console, `foreground
      ensures var p := Paint(segments, defaultColor, defaultColor, false);
        console == old(console) + p.outputs && foreground == p.final
    {
      var colorChanged := false;
      ghost var written: seq<Output> := [];
      var k := 0;
      while k < |segments|
        invariant 0 <= k <= |segments|
        invariant console == old(console) + written
        invariant var p := Paint(segments[k..], defaultColor, foreground, colorChanged);
          Paint(segments, defaultColor, defaultColor, false) == Painted(written + p.outputs, p.final)
        decreases |segments| - k
      {
        var line := segments[k];
        PaintStep(segments, k, defaultColor, foreground, colorChanged);
        match ColorSwitch(line) {
          case Some(pick) =>
            foreground := pick;
            colorChanged := true;
          case None =>
            if '}' in line && colorChanged {
              foreground := defaultColor;
            } else {
              ghost var rest := Paint(segments[k + 1..], defaultColor, foreground, colorChanged);
              AppendAssociates(written, [Written(line, foreground)], rest.outputs);
              AppendAssociates(old(console), written, [Written(line, foreground)]);
              console := console + [Written(line, foreground)];
              written := written + [Written(line, foreground)];
            }
        }
        k := k + 1;
      }
      assert segments[k..] == [];
      assert written + [] == written;
    }

    /** `Write`: queued once the log is started, printed at once before,
        which raises when the colour pattern is not built. */
    method Write(e: LogEntry) returns (thrown: Option<Exception>)
      modifies this
      ensures thrown.Some? <==> !started && !e.isLogOnly && !patternBuilt
      ensures thrown.Some? ==>
        && thrown.value == ArgumentNullException
        && queue == old(queue) && console == old(console)
        && foreground == (if useConsole then DefaultColor(e.severity) else old(foreground))
      ensures started ==> queue == old(queue) + [e] && console == old(console) && foreground == old(foreground)
      ensures !started && thrown.None? ==>
        && queue == old(queue)
        && console == old(console) + Printed(e, started, useConsole)
        && foreground == ColorAfter(e, started, useConsole, old(foreground))
      ensures started == old(started) && useConsole == old(useConsole) && patternBuilt == old(patternBuilt)
      ensures file == old(file)
    {
      if started {
        queue := queue + [e];
        thrown := None;
      } else {
        thrown := Print(e);
      }
    }

    /** `Start`: the colour pattern is built first and the console flag
        saved; then the directory is checked. Writable: a fresh queue, the
        started flag and the "logging enabled" entry, queued. The purge task
        is then created and started: its status setter writes "Task '<owner>'
        created" and "Task '<owner>' started", which queue behind it since the
        log is started. Not writable: when the check itself threw, it has
        already written its Medium exception entry; then the "logging
        disabled" entry follows. Both are written as `Write` writes them:
        queued on a log already started, printed at once on one that is not.
        `taskOwner` is the name the task reads from its caller's frame. */
    method Start(console_: bool, check: DirectoryCheck, directoryPath: string, processName: string,
                 taskOwner: string, timestamp: string)
      modifies this
      ensures patternBuilt && useConsole == console_ && file == old(file)
      ensures check == Writable ==>
        && started
        && queue == [Plain("Application " + processName + " started (logging enabled)", NoSeverity, false, "", timestamp),
                     TaskStatusEntry(taskOwner, "created", timestamp),
                     TaskStatusEntry(taskOwner, "started", timestamp)]
        && console == old(console) && foreground == old(foreground)
      ensures check != Writable ==> started == old(started)
      ensures check != Writable && old(started) ==>
        && queue == old(queue) + CheckEntries(check, directoryPath, timestamp)
                               + [Plain("Application " + processName + " started (logging disabled)", NoSeverity, false, "", timestamp)]
        && console == old(console) && foreground == old(foreground)
      ensures check == NoPath && !old(started) ==>
        var disabled := Plain("Application " + processName + " started (logging disabled)", NoSeverity, false, "", timestamp);
        && queue == old(queue)
        && console == old(console) + Printed(disabled, false, console_)
        && foreground == ColorAfter(disabled, false, console_, old(foreground))
      ensures check.CheckFailed? && !old(started) ==>
        var error := CheckEntry(check.error, directoryPath, timestamp);
        var disabled := Plain("Application " + processName + " started (logging disabled)", NoSeverity, false, "", timestamp);
        && queue == old(queue)
        && console == old(console) + Printed(error, false, console_) + Printed(disabled, false, console_)
        && foreground == ColorAfter(disabled, false, console_, ColorAfter(error, false, console_, old(foreground)))
    {
      patternBuilt := true;
      useConsole := console_;
      if check == Writable {
        StartQueue(processName, taskOwner, timestamp);
      } else {
        ReportDisabled(check, directoryPath, processName, timestamp);
      }
    }

    /** The writable branch of `Start`: a fresh queue, the started flag, the
        "logging enabled" entry and the purge task's two status entries. */
    method StartQueue(processName: string, taskOwner: string, timestamp: string)
      modifies this
      ensures started && patternBuilt == old(patternBuilt) && useConsole == old(useConsole) && file == old(file)
      ensures queue == [Plain("Application " + processName + " started (logging enabled)", NoSeverity, false, "", timestamp),
                        TaskStatusEntry(taskOwner, "created", timestamp),
                        TaskStatusEntry(taskOwner, "started", timestamp)]
      ensures console == old(console) && foreground == old(foreground)
    {
      queue := [];
      started := true;
      var thrown := Write(Plain("Application " + processName + " started (logging enabled)", NoSeverity, false, "", timestamp));
      // The purge task's constructor sets `Status = Created`, then
      // `task.Start()` sets `Status = Started`; each write is queued.
      thrown := Write(TaskStatusEntry(taskOwner, "created", timestamp));
      thrown := Write(TaskStatusEntry(taskOwner, "started", timestamp));
    }

    /** The other branch of `Start`: the check's error entry, when it threw,
        then the "logging disabled" entry, each queued or printed. */
    method ReportDisabled(check: DirectoryCheck, directoryPath: string, processName: string, timestamp: string)
      requires patternBuilt && check != Writable
      modifies this
      ensures started == old(started) && patternBuilt && useConsole == old(useConsole) && file == old(file)
      ensures old(started) ==>
        && queue == old(queue) + CheckEntries(check, directoryPath, timestamp)
                               + [Plain("Application " + processName + " started (logging disabled)", NoSeverity, false, "", timestamp)]
        && console == old(console) && foreground == old(foreground)
      ensures check == NoPath && !old(started) ==>
        var disabled := Plain("Application " + processName + " started (logging disabled)", NoSeverity, false, "", timestamp);
        && queue == old(queue)
        && console == old(console) + Printed(disabled, false, useConsole)
        && foreground == ColorAfter(disabled, false, useConsole, old(foreground))
      ensures check.CheckFailed? && !old(started) ==>
        var error := CheckEntry(check.error, directoryPath, timestamp);
        var disabled := Plain("Application " + processName + " started (logging disabled)", NoSeverity, false, "", timestamp);
        && queue == old(queue)
        && console == old(console) + Printed(error, false, useConsole) + Printed(disabled, false, useConsole)
        && foreground == ColorAfter(disabled, false, useConsole, ColorAfter(error, false, useConsole, old(foreground)))
    {
      var thrown;
      if check.CheckFailed? {
        thrown := Write(CheckEntry(check.error, directoryPath, timestamp));
      }
      thrown := Write(Plain("Application " + processName + " started (logging disabled)", NoSeverity, false, "", timestamp));
    }

    /** `PurgeQueue`: when the day's file opens, the queue is drained oldest
        first, each entry appended to the file in the plain form and then
        printed; when it does not, the error is printed as a Medium entry and
        the queue is left as it was. The purge runs only in the worker that
        `Start` creates after building the colour pattern. */
    method PurgeQueue(fileOpens: bool, errorText: string, timestamp: string)
      requires patternBuilt
      modifies this
      ensures fileOpens ==>
        && queue == []
        && file == old(file) + FileLines(old(queue), started)
        && console == old(console) + PrintedAll(old(queue), started, useConsole)
        && foreground == ColorAfterAll(old(queue), started, useConsole, old(foreground))
      ensures !fileOpens ==>
        var error := OfException(errorText, "Error while writing to log file", Medium, false, "", timestamp);
        && queue == old(queue) && file == old(file)
        && console == old(console) + Printed(error, started, useConsole)
        && foreground == ColorAfter(error, started, useConsole, old(foreground))
      ensures started == old(started) && useConsole == old(useConsole) && patternBuilt
    {
      if !fileOpens {
        var thrown := Print(OfException(errorText, "Error while writing to log file", Medium, false, "", timestamp));
        return;
      }
      ghost var done: seq<LogEntry> := [];
      while queue != []
        invariant done + queue == old(queue)
        invariant file == old(file) + FileLines(done, started)
        invariant console == old(console) + PrintedAll(done, started, useConsole)
        invariant foreground == ColorAfterAll(done, started, useConsole, old(foreground))
        invariant started == old(started) && useConsole == old(useConsole) && patternBuilt
        decreases |queue|
      {
        ghost var pending := queue;
        var e := DequeueAndWrite();
        TakeFront(done, pending);
        assert file == old(file) + FileLines(done + [e], started) by {
          ConcatAppend(done, e, FileLine(started));
          AppendAssociates(old(file), FileLines(done, started), FileLine(started)(e));
        }
        assert console == old(console) + PrintedAll(done + [e], started, useConsole) by {
          ConcatAppend(done, e, Printer(started, useConsole));
          AppendAssociates(old(console), PrintedAll(done, started, useConsole), Printer(started, useConsole)(e));
        }
        assert foreground == ColorAfterAll(done + [e], started, useConsole, old(foreground)) by {
          FoldAppend(done, e, ColorStep(started, useConsole), old(foreground));
        }
        done := done + [e];
      }
      assert done == old(queue);
    }

    /** One turn of the `while`: the oldest entry is taken off the queue,
        appended to the file and printed. */
    method DequeueAndWrite() returns (e: LogEntry)
      requires queue != [] && patternBuilt
      modifies this
      ensures e == old(queue[0]) && queue == old(queue[1..])
      ensures file == old(file) + FileLine(started)(e)
      ensures console == old(console) + Printer(started, useConsole)(e)
      ensures foreground == ColorStep(started, useConsole)(e, old(foreground))
      ensures started == old(started) && useConsole == old(useConsole) && patternBuilt
    {
      e := queue[0];
      queue := queue[1..];
      file := file + [CreateString(e, false, started)];
      var thrown := Print(e);
    }
  }

  /** Writing to a log before its first `Start`: the colour pattern is still
      null, so an entry that is not log-only makes `Write` raise and nothing
      reaches the output. */
  method WriteBeforeStartThrows(caption: string, timestamp: string) returns (thrown: Option<Exception>, printed: seq<Output>)
    ensures thrown == Some(ArgumentNullException) && printed == []
  {
    var log := new Log();
    thrown := log.Write(Plain(caption, NoSeverity, false, "", timestamp));
    printed := log.console;
  }

  /** After `Start` a write never raises: with a writable directory the entry
      waits in the queue behind the "logging enabled" entry and the purge
      task's two status entries; otherwise it is printed at once after the
      check's own error entry, if the check threw, and the "logging
      disabled" entry. */
  method WriteAfterStart(check: DirectoryCheck, directoryPath: string, caption: string, processName: string,
                         taskOwner: string, timestamp: string)
    returns (thrown: Option<Exception>, queued: seq<LogEntry>, printed: seq<Output>)
    ensures thrown == None
    ensures check == Writable ==> queued == [Plain("Application " + processName + " started (logging enabled)", NoSeverity, false, "", timestamp),
                                             TaskStatusEntry(taskOwner, "created", timestamp),
                                             TaskStatusEntry(taskOwner, "started", timestamp),
                                             Plain(caption, NoSeverity, false, "", timestamp)] && printed == []
    ensures check != Writable ==> queued == []
    ensures check == NoPath ==>
      printed == Printed(Plain("Application " + processName + " started (logging disabled)", NoSeverity, false, "", timestamp), false, false)
                 + Printed(Plain(caption, NoSeverity, false, "", timestamp), false, false)
    ensures check.CheckFailed? ==>
      printed == Printed(CheckEntry(check.error, directoryPath, timestamp), false, false)
                 + Printed(Plain("Application " + processName + " started (logging disabled)", NoSeverity, false, "", timestamp), false, false)
                 + Printed(Plain(caption, NoSeverity, false, "", timestamp), false, false)
  {
    var log := new Log();
    log.Start(false, check, directoryPath, processName, taskOwner, timestamp);
    ghost var announced := log.console;
    var entry := Plain(caption, NoSeverity, false, "", timestamp);
    thrown := log.Write(entry);
    queued, printed := log.queue, log.console;
    if check.CheckFailed? {
      ghost var error := Printed(CheckEntry(check.error, directoryPath, timestamp), false, false);
      ghost var disabled := Printed(Plain("Application " + processName + " started (logging disabled)", NoSeverity, false, "", timestamp), false, false);
      assert announced == error + disabled by {
        assert announced == [] + error + disabled;
        assert [] + error == error;
      }
    }
  }
}

/**
  Sanitising pod logs: stripping terminal escapes and control characters, then capping lines.

  The stripper is the source's nested loops over one character iterator. Its reference is an
  automaton that reads one character at a time; that it can be cut anywhere outside an escape
  sequence, and what it lets through, are proved about the automaton. Text is a sequence of
  characters with a UTF-8 length each.
 */
module LogSanitize {
  import opened Seqs

  const ESC: char := '\U{1B}'
  const BEL: char := '\U{07}'
  const DEL: char := '\U{7F}'
  const MAX_LINE_BYTES: nat := 2048
  const LINE_TRUNC_MARKER: string := " ...[line truncated]"

  // ------------------------------------------------------------ the automaton

  /** Where the reader is: in text, after ESC, in a CSI or OSC sequence, or after an ESC inside an OSC sequence. */
  datatype Mode = Text | AfterEsc | Csi | Osc | OscEsc

  predicate IsCsiFinal(c: char) {
    0x40 <= c as int <= 0x7E
  }

  predicate IsSafe(c: char) {
    c == '\t' || c == '\n' || c == '\r' || (c as int >= 0x20 && c != DEL)
  }

  /** What a character outside any sequence contributes. */
  function EmitText(c: char): string {
    if c == ESC || c == DEL then ""
    else if c == '\t' || c == '\n' || c == '\r' then [c]
    else if c as int < 0x20 then "?"
    else [c]
  }

  function NextMode(m: Mode, c: char): Mode {
    match m
    case Text => if c == ESC then AfterEsc else Text
    case AfterEsc => if c == '[' then Csi else if c == ']' then Osc else Text
    case Csi => if IsCsiFinal(c) then Text else Csi
    case Osc => if c == BEL then Text else if c == ESC then OscEsc else Osc
    case OscEsc => if c == '\\' then Text else if c == ESC then AfterEsc else Text
  }

  function Emit(m: Mode, c: char): string {
    if m == Text || (m == OscEsc && c != '\\') then EmitText(c) else ""
  }

  function EndMode(m: Mode, s: string): Mode
    decreases |s|
  {
    if s == "" then m else EndMode(NextMode(m, s[0]), s[1..])
  }

  function StripFrom(m: Mode, s: string): string
    decreases |s|
  {
    if s == "" then "" else Emit(m, s[0]) + StripFrom(NextMode(m, s[0]), s[1..])
  }

  function Strip(s: string): string {
    StripFrom(Text, s)
  }

  // ------------------------------------------------------------ the source's loops

  /** Reads a CSI sequence from position i: up to and including its final byte. */
  method SkipCsi(input: string, i: nat) returns (j: nat)
    requires i <= |input|
    ensures i <= j <= |input| && StripFrom(Csi, input[i..]) == StripFrom(Text, input[j..])
  {
    j := i;
    while j < |input|
      invariant i <= j <= |input| && StripFrom(Csi, input[i..]) == StripFrom(Csi, input[j..])
    {
      var nc := input[j];
      StripStep(Csi, input, j);
      j := j + 1;
      if IsCsiFinal(nc) {
        return;
      }
    }
  }

  /** Reads an OSC sequence: up to BEL, or up to an ESC and the backslash after it, if there is one. */
  method SkipOsc(input: string, i: nat) returns (j: nat)
    requires i <= |input|
    ensures i <= j <= |input| && StripFrom(Osc, input[i..]) == StripFrom(Text, input[j..])
  {
    j := i;
    while j < |input|
      invariant i <= j <= |input| && StripFrom(Osc, input[i..]) == StripFrom(Osc, input[j..])
    {
      var nc := input[j];
      StripStep(Osc, input, j);
      j := j + 1;
      if nc == BEL {
        return;
      }
      if nc == ESC {
        if j < |input| {
          StripStep(OscEsc, input, j);
          StripStep(Text, input, j);
        }
        if j < |input| && input[j] == '\\' {
          j := j + 1;
        }
        return;
      }
    }
  }

  /** Reads what follows an ESC: a CSI or OSC sequence, or one character, or nothing at the end. */
  method SkipEscape(input: string, i: nat) returns (j: nat)
    requires i <= |input|
    ensures i <= j <= |input| && StripFrom(AfterEsc, input[i..]) == StripFrom(Text, input[j..])
  {
    j := i;
    if i < |input| {
      var kind := input[i];
      StripStep(AfterEsc, input, i);
      j := i + 1;
      if kind == '[' {
        j := SkipCsi(input, j);
      } else if kind == ']' {
        j := SkipOsc(input, j);
      }
    }
  }

  method StripControlBytes(input: string) returns (out: string)
    ensures out == Strip(input)
  {
    out := "";
    var i := 0;
    assert input[0..] == input;
    while i < |input|
      invariant i <= |input| && StripsTo(input, out, i)
    {
      var c := input[i];
      if c == ESC {
        var j := SkipEscape(input, i + 1);
        EscapeSkipped(input, out, i, j);
        i := j;
      } else {
        PushText(input, out, i);
        out := out + EmitText(c);
        i := i + 1;
      }
    }
    assert out + "" == out;
  }

  /** `out` is what the first i characters contribute, and no sequence is open there. */
  ghost predicate StripsTo(input: string, out: string, i: nat)
    requires i <= |input|
  {
    Strip(input) == out + StripFrom(Text, input[i..])
  }

  lemma EscapeSkipped(input: string, out: string, i: nat, j: nat)
    requires i < |input| && input[i] == ESC && StripsTo(input, out, i)
    requires j <= |input| && StripFrom(AfterEsc, input[i + 1..]) == StripFrom(Text, input[j..])
    ensures StripsTo(input, out, j)
  {
    StripStep(Text, input, i);
  }

  lemma PushText(input: string, out: string, i: nat)
    requires i < |input| && input[i] != ESC && StripsTo(input, out, i)
    ensures StripsTo(input, out + EmitText(input[i]), i + 1)
  {
    StripStep(Text, input, i);
    AppendAssoc(out, EmitText(input[i]), StripFrom(Text, input[i + 1..]));
  }

  lemma StripStep(m: Mode, s: string, i: nat)
    requires i < |s|
    ensures StripFrom(m, s[i..]) == Emit(m, s[i]) + StripFrom(NextMode(m, s[i]), s[i + 1..])
  {
    assert s[i..][1..] == s[i + 1..];
  }

  // ------------------------------------------------------------ properties of stripping

  ghost predicate Clean(s: string) {
    forall k :: 0 <= k < |s| ==> IsSafe(s[k])
  }

  /** The output has no ESC, no DEL and no C0 control but tab, LF and CR. */
  lemma {:induction false} StripIsClean(m: Mode, s: string)
    ensures Clean(StripFrom(m, s))
    decreases |s|
  {
    if s == "" {
    } else {
      StripIsClean(NextMode(m, s[0]), s[1..]);
      assert Clean(Emit(m, s[0]));
    }
  }

  lemma {:induction false} StripKeepsClean(s: string)
    requires Clean(s)
    ensures Strip(s) == s
    decreases |s|
  {
    if s == "" {
    } else {
      assert Clean(s[1..]) by {
        assert forall k :: 0 <= k < |s[1..]| ==> s[1..][k] == s[k + 1];
      }
      StripKeepsClean(s[1..]);
      assert Emit(Text, s[0]) == [s[0]];
      assert s == [s[0]] + s[1..];
    }
  }

  /** Exactly the clean texts are left as they are; in particular stripping twice is stripping once. */
  lemma StripFixesExactlyClean(s: string)
    ensures Strip(s) == s <==> Clean(s)
    ensures Strip(Strip(s)) == Strip(s)
  {
    StripIsClean(Text, s);
    StripKeepsClean(Strip(s));
    if Clean(s) {
      StripKeepsClean(s);
    }
  }

  lemma {:induction false} StripFromConcat(m: Mode, a: string, b: string)
    ensures StripFrom(m, a + b) == StripFrom(m, a) + StripFrom(EndMode(m, a), b)
    decreases |a|
  {
    if a == "" {
      assert a + b == b;
    } else {
      StripFromConcat(NextMode(m, a[0]), a[1..], b);
      assert (a + b)[1..] == a[1..] + b;
      AppendAssoc(Emit(m, a[0]), StripFrom(NextMode(m, a[0]), a[1..]),
                  StripFrom(EndMode(m, a), b));
    }
  }

  ghost predicate SafeCut(a: string) {
    forall b: string :: Strip(a + b) == Strip(a) + Strip(b)
  }

  /** A text can be stripped piece by piece exactly when it is cut where no escape sequence is open. */
  lemma SafeCutIffOutsideEscapes(a: string)
    ensures SafeCut(a) <==> EndMode(Text, a) == Text
  {
    if EndMode(Text, a) == Text {
      forall b: string ensures Strip(a + b) == Strip(a) + Strip(b) {
        StripFromConcat(Text, a, b);
      }
    } else {
      var b := if EndMode(Text, a) == OscEsc then "\\" else "m";
      StripFromConcat(Text, a, b);
      assert StripFrom(EndMode(Text, a), b) == "";
      StripKeepsClean(b);
      assert |Strip(a + b)| != |Strip(a) + Strip(b)|;
    }
  }

  /** The C1 controls, the second block of control characters in Unicode. */
  predicate IsC1(c: char) {
    0x80 <= c as int <= 0x9F
  }

  /** No control character at all but tab, LF and CR. */
  ghost predicate Printable(s: string) {
    Clean(s) && forall k :: 0 <= k < |s| ==> !IsC1(s[k])
  }

  /** Some C1 control is read where text is read, not swallowed by an escape sequence. */
  predicate ShowsC1(m: Mode, s: string)
    decreases |s|
  {
    s != "" && ((IsC1(s[0]) && (m == Text || m == OscEsc)) || ShowsC1(NextMode(m, s[0]), s[1..]))
  }

  /**
    "Only printable characters" holds of the output if and only if no C1 control of the input is
    read as text: the sanitiser removes the C0 controls but lets the C1 controls pass.
   */
  lemma {:induction false} PrintableIff(m: Mode, s: string)
    ensures Printable(StripFrom(m, s)) <==> !ShowsC1(m, s)
    decreases |s|
  {
    StripIsClean(m, s);
    if s == "" {
    } else {
      PrintableIff(NextMode(m, s[0]), s[1..]);
      PrintableConcat(Emit(m, s[0]), StripFrom(NextMode(m, s[0]), s[1..]));
      StripIsClean(NextMode(m, s[0]), s[1..]);
    }
  }

  lemma PrintableConcat(a: string, b: string)
    ensures Printable(a + b) <==> Printable(a) && Printable(b)
  {
    if Printable(a + b) {
      assert forall k :: 0 <= k < |a| ==> a[k] == (a + b)[k];
      assert forall k :: 0 <= k < |b| ==> b[k] == (a + b)[|a| + k];
    }
  }

  /** For example: a C1 control by itself passes. */
  lemma C1ControlsPass(c: char)
    requires IsC1(c)
    ensures Strip([c]) == [c] && !Printable(Strip([c]))
  {
    StripKeepsClean([c]);
  }

  // ------------------------------------------------------------ what an escape sequence is

  /** The characters that end a CSI sequence: '@' to '~'. */
  ghost predicate NoFinal(p: string) {
    forall k :: 0 <= k < |p| ==> !('@' <= p[k] <= '~')
  }

  lemma {:induction false} SkipsToFinal(p: string, rest: string)
    requires NoFinal(p)
    ensures StripFrom(Csi, p) == ""
    ensures rest != "" && '@' <= rest[0] <= '~' ==> StripFrom(Csi, p + rest) == StripFrom(Text, rest[1..])
  {
    if p == "" {
      assert p + rest == rest;
    } else {
      SkipsToFinal(p[1..], rest);
      assert (p + rest)[1..] == p[1..] + rest;
    }
  }

  /** A CSI sequence, with any parameters, is dropped up to and with its final character; without one, all is. */
  lemma CsiIsDropped(p: string, f: char, rest: string)
    requires NoFinal(p) && '@' <= f <= '~'
    ensures Strip("\U{1B}[" + p + [f] + rest) == Strip(rest)
    ensures Strip("\U{1B}[" + p) == ""
  {
    SkipsToFinal(p, [f] + rest);
    Opened('[', p + ([f] + rest), "\U{1B}[" + p + [f] + rest);
    Opened('[', p, "\U{1B}[" + p);
    assert ([f] + rest)[1..] == rest;
  }

  /** An ESC and the character behind it decide how the rest is read. */
  lemma Opened(kind: char, rest: string, s: string)
    requires s == "\U{1B}" + [kind] + rest
    ensures Strip(s) == StripFrom(if kind == '[' then Csi else if kind == ']' then Osc else Text, rest)
  {
    assert s[0] == '\U{1B}' && s[1..][0] == kind && s[1..][1..] == rest;
    assert Strip(s) == StripFrom(AfterEsc, s[1..]);
  }

  /** Text inside an OSC sequence: neither BEL nor ESC. */
  ghost predicate NoEnd(t: string) {
    forall k :: 0 <= k < |t| ==> t[k] != '\U{07}' && t[k] != '\U{1B}'
  }

  lemma {:induction false} SkipsToEnd(t: string, rest: string)
    requires NoEnd(t)
    ensures StripFrom(Osc, t + rest) == StripFrom(Osc, rest)
  {
    if t == "" {
      assert t + rest == rest;
    } else {
      SkipsToEnd(t[1..], rest);
      assert (t + rest)[1..] == t[1..] + rest;
    }
  }

  /**
    An OSC sequence is dropped up to and with a BEL, or an ESC and the backslash behind it; another
    character behind the ESC is read as text again. Without an end, all is dropped.
   */
  lemma OscIsDropped(t: string, rest: string)
    requires NoEnd(t)
    ensures Strip("\U{1B}]" + t + "\U{07}" + rest) == Strip(rest)
    ensures Strip("\U{1B}]" + t + "\U{1B}\\" + rest) == Strip(rest)
    ensures rest == "" || rest[0] != '\\' ==> Strip("\U{1B}]" + t + "\U{1B}" + rest) == Strip(rest)
    ensures Strip("\U{1B}]" + t) == ""
  {
    OscEndedBy(t, "\U{07}" + rest);
    OscEndedBy(t, "\U{1B}\\" + rest);
    OscEndedBy(t, "\U{1B}" + rest);
    OscEndedBy(t, "");
    assert "\U{1B}]" + t + "" == "\U{1B}]" + t;
    AppendAssoc("\U{1B}]" + t, "\U{07}", rest);
    AppendAssoc("\U{1B}]" + t, "\U{1B}\\", rest);
    AppendAssoc("\U{1B}]" + t, "\U{1B}", rest);
    assert ("\U{07}" + rest)[1..] == rest && ("\U{1B}" + rest)[1..] == rest;
    assert ("\U{1B}\\" + rest)[1..] == "\\" + rest && ("\\" + rest)[1..] == rest;
  }

  lemma OscEndedBy(t: string, tail: string)
    requires NoEnd(t)
    ensures Strip("\U{1B}]" + t + tail) == StripFrom(Osc, tail)
  {
    SkipsToEnd(t, tail);
    Opened(']', t + tail, "\U{1B}]" + t + tail);
    assert t + "" == t;
  }

  /** Any other escape is two characters long; a last ESC stands alone. */
  lemma EscapeIsDropped(c: char, rest: string)
    requires c != '[' && c != ']'
    ensures Strip("\U{1B}" + [c] + rest) == Strip(rest)
    ensures Strip("\U{1B}") == ""
  {
    Opened(c, rest, "\U{1B}" + [c] + rest);
    assert "\U{1B}"[1..] == "";
  }

  /** Outside of sequences: tab, LF, CR and everything printable stays, DEL goes, and other C0 controls show as '?'. */
  lemma TextIsShown(c: char, rest: string)
    requires c != '\U{1B}'
    ensures Strip([c] + rest)
         == (if c == '\t' || c == '\n' || c == '\r' then [c]
             else if c == '\U{7F}' then ""
             else if (c as int) < 32 then "?"
             else [c]) + Strip(rest)
  {
    assert ([c] + rest)[1..] == rest;
  }

  // ------------------------------------------------------------ lines and byte lengths

  function Utf8Len(c: char): (n: nat)
    ensures 1 <= n <= 4
  {
    var cp := c as int;
    if cp < 0x80 then 1 else if cp < 0x800 then 2 else if cp < 0x1_0000 then 3 else 4
  }

  function ByteLen(s: string): (n: nat)
    ensures n >= |s|
  {
    if s == "" then 0 else ByteLen(s[..|s| - 1]) + Utf8Len(s[|s| - 1])
  }

  lemma {:induction false} ByteLenConcat(a: string, b: string)
    ensures ByteLen(a + b) == ByteLen(a) + ByteLen(b)
    decreases |b|
  {
    if b == "" {
      assert a + b == a;
    } else {
      ByteLenConcat(a, b[..|b| - 1]);
      assert (a + b)[..|a + b| - 1] == a + b[..|b| - 1];
    }
  }

  /** The number of characters in front of byte offset `cut`, if `cut` is a character boundary. */
  function CharsBefore(s: string, cut: nat): (r: Option<nat>)
    ensures r.Some? ==> r.value <= |s| && ByteLen(s[..r.value]) == cut
    ensures r.None? ==> forall k :: 0 <= k <= |s| ==> ByteLen(s[..k]) != cut
  {
    if ByteLen(s) == cut then
      assert s[..|s|] == s;
      Some(|s|)
    else if s == "" then None
    else
      var t := s[..|s| - 1];
      assert forall k :: 0 <= k <= |t| ==> t[..k] == s[..k];
      assert s[..|s|] == s;
      CharsBefore(t, cut)
  }

  /** The longest prefix of whole characters that fits into `max` bytes. */
  ghost predicate IsLongestPrefix(s: string, max: nat, r: string) {
    && r <= s && ByteLen(r) <= max
    && forall k :: 0 <= k <= |s| && ByteLen(s[..k]) <= max ==> k <= |r|
  }

  function FittingPrefix(s: string, max: nat): (r: string)
    ensures IsLongestPrefix(s, max, r)
  {
    if ByteLen(s) <= max then s
    else
      var t := s[..|s| - 1];
      assert forall k :: 0 <= k <= |t| ==> t[..k] == s[..k];
      assert s[..|s|] == s;
      FittingPrefix(t, max)
  }

  lemma {:induction false} ByteLenGrows(s: string, j: nat, k: nat)
    requires j < k <= |s|
    ensures ByteLen(s[..j]) < ByteLen(s[..k])
  {
    assert s[..k] == s[..j] + s[j..k];
    ByteLenConcat(s[..j], s[j..k]);
  }

  function CapLine(line: string, max: nat): string {
    if ByteLen(line) <= max then line else FittingPrefix(line, max) + LINE_TRUNC_MARKER
  }

  /** Counting `cut` down from the cap to a character boundary leaves the longest fitting prefix. */
  method CutAtBoundary(line: string, max: nat) returns (r: string)
    requires max < ByteLen(line)
    ensures r == FittingPrefix(line, max)
  {
    var cut := max;
    assert line[..0] == "";
    while cut > 0 && CharsBefore(line, cut).None?
      invariant cut <= max
      invariant forall k :: 0 <= k <= |line| && cut < ByteLen(line[..k]) ==> max < ByteLen(line[..k])
    {
      cut := cut - 1;
    }
    r := line[..CharsBefore(line, cut).value];
    LongestPrefixIsUnique(line, max, cut, r);
  }

  lemma LongestPrefixIsUnique(line: string, max: nat, cut: nat, r: string)
    requires cut <= max && r <= line && ByteLen(r) == cut
    requires forall k :: 0 <= k <= |line| && cut < ByteLen(line[..k]) ==> max < ByteLen(line[..k])
    ensures r == FittingPrefix(line, max)
  {
    var best := FittingPrefix(line, max);
    assert best == line[..|best|] && r == line[..|r|];
    if |r| < |best| {
      ByteLenGrows(line, |r|, |best|);
    }
  }

  // ------------------------------------------------------------ lines

  function Split(s: string): (lines: seq<string>)
    ensures |lines| >= 1
    decreases |s|
  {
    if s == "" then [""]
    else
      var rest := Split(s[1..]);
      if s[0] == '\n' then [""] + rest else [[s[0]] + rest[0]] + rest[1..]
  }

  function Join(lines: seq<string>): string
    requires |lines| >= 1
  {
    if |lines| == 1 then lines[0] else lines[0] + "\n" + Join(lines[1..])
  }

  ghost predicate OneLine(s: string) {
    '\n' !in s
  }

  ghost predicate AreLines(lines: seq<string>) {
    forall k :: 0 <= k < |lines| ==> OneLine(lines[k])
  }

  lemma {:induction false} SplitGivesLines(s: string)
    ensures AreLines(Split(s))
    decreases |s|
  {
    if s == "" {
    } else {
      SplitGivesLines(s[1..]);
    }
  }

  lemma {:induction false} JoinOfSplit(s: string)
    ensures Join(Split(s)) == s
    decreases |s|
  {
    if s == "" {
    } else {
      JoinOfSplit(s[1..]);
      assert s == [s[0]] + s[1..];
      if s[0] == '\n' {
        assert Split(s)[1..] == Split(s[1..]);
      } else {
        JoinPushFront(s[0], Split(s[1..]));
      }
    }
  }

  lemma JoinPushFront(c: char, lines: seq<string>)
    requires |lines| >= 1
    ensures Join([[c] + lines[0]] + lines[1..]) == [c] + Join(lines)
  {
    var pushed := [[c] + lines[0]] + lines[1..];
    assert pushed[1..] == lines[1..];
    if |lines| > 1 {
      AppendAssoc([c], lines[0], "\n" + Join(lines[1..]));
      AppendAssoc(lines[0], "\n", Join(lines[1..]));
      AppendAssoc([c] + lines[0], "\n", Join(lines[1..]));
    }
  }

  lemma {:induction false} SplitOfAppend(line: string, rest: string)
    requires OneLine(line)
    ensures Split(line + "\n" + rest) == [line] + Split(rest)
    decreases |line|
  {
    var s := line + "\n" + rest;
    if line == "" {
      assert s[1..] == rest;
    } else {
      SplitOfAppend(line[1..], rest);
      assert s[1..] == line[1..] + "\n" + rest;
      assert [line[0]] + line[1..] == line;
    }
  }

  lemma {:induction false} SplitOfLine(line: string)
    requires OneLine(line)
    ensures Split(line) == [line]
    decreases |line|
  {
    if line == "" {
    } else {
      SplitOfLine(line[1..]);
      assert [line[0]] + line[1..] == line;
    }
  }

  lemma {:induction false} SplitOfJoin(lines: seq<string>)
    requires |lines| >= 1 && AreLines(lines)
    ensures Split(Join(lines)) == lines
  {
    if |lines| == 1 {
      SplitOfLine(lines[0]);
    } else {
      SplitOfJoin(lines[1..]);
      assert OneLine(lines[0]);
      SplitOfAppend(lines[0], Join(lines[1..]));
    }
  }

  lemma {:induction false} JoinSnoc(lines: seq<string>, line: string)
    requires |lines| >= 1
    ensures Join(lines + [line]) == Join(lines) + "\n" + line
  {
    assert (lines + [line])[1..] == lines[1..] + [line];
    if |lines| > 1 {
      JoinSnoc(lines[1..], line);
      var head := lines[0] + "\n";
      AppendAssoc(head, Join(lines[1..]), "\n");
      AppendAssoc(head, Join(lines[1..]) + "\n", line);
    }
  }

  lemma {:induction false} LineFitsInText(lines: seq<string>, k: nat)
    requires k < |lines|
    ensures ByteLen(lines[k]) <= ByteLen(Join(lines))
  {
    if |lines| > 1 {
      var tail := "\n" + Join(lines[1..]);
      ByteLenConcat("\n", Join(lines[1..]));
      ByteLenConcat(lines[0], tail);
      AppendAssoc(lines[0], "\n", Join(lines[1..]));
      if k > 0 {
        LineFitsInText(lines[1..], k - 1);
      }
    }
  }

  // ------------------------------------------------------------ capping

  function CapLines(lines: seq<string>, max: nat): seq<string> {
    seq(|lines|, k requires 0 <= k < |lines| => CapLine(lines[k], max))
  }

  /** What capping means without the fast path: every line on its own. */
  function Cap(s: string, max: nat): string {
    Join(CapLines(Split(s), max))
  }

  /** The fast path changes nothing: a text no longer than one line's budget has no line to cut. */
  lemma FastPathAgrees(s: string, max: nat)
    requires ByteLen(s) <= max
    ensures Cap(s, max) == s
  {
    var lines := Split(s);
    JoinOfSplit(s);
    forall k | 0 <= k < |lines| ensures CapLine(lines[k], max) == lines[k] {
      LineFitsInText(lines, k);
    }
    assert CapLines(lines, max) == lines;
  }

  /** Pushes one line: whole if it fits, else its longest fitting prefix and the marker. */
  method PushCapped(text: string, line: string, max: nat) returns (out: string)
    ensures out == text + CapLine(line, max)
  {
    if ByteLen(line) <= max {
      return text + line;
    }
    var kept := CutAtBoundary(line, max);
    AppendAssoc(text, kept, LINE_TRUNC_MARKER);
    out := text + kept + LINE_TRUNC_MARKER;
  }

  /** The capped form of the first i lines, joined. */
  ghost function CappedUpTo(lines: seq<string>, max: nat, i: nat): string
    requires i <= |lines|
  {
    if i == 0 then "" else Join(CapLines(lines[..i], max))
  }

  lemma CappedUpToStep(lines: seq<string>, max: nat, i: nat)
    requires i < |lines|
    ensures CappedUpTo(lines, max, i + 1)
         == (if i == 0 then "" else CappedUpTo(lines, max, i) + "\n") + CapLine(lines[i], max)
  {
    var before := CapLines(lines[..i], max);
    assert CapLines(lines[..i + 1], max) == before + [CapLine(lines[i], max)];
    if i == 0 {
      assert before == [];
    } else {
      JoinSnoc(before, CapLine(lines[i], max));
    }
  }

  method CapLineLength(input: string, max: nat) returns (out: string)
    ensures out == Cap(input, max)
  {
    if ByteLen(input) <= max {
      FastPathAgrees(input, max);
      return input;
    }
    out := "";
    var lines := Split(input);
    var first := true;
    for i := 0 to |lines|
      invariant first <==> i == 0
      invariant out == CappedUpTo(lines, max, i)
    {
      CappedUpToStep(lines, max, i);
      if !first {
        out := out + "\n";
      }
      first := false;
      out := PushCapped(out, lines[i], max);
    }
    assert lines[..|lines|] == lines;
  }

  lemma CappedLine(line: string, max: nat)
    ensures OneLine(line) ==> OneLine(CapLine(line, max))
    ensures ByteLen(CapLine(line, max)) <= max + 20
  {
    MarkerLength();
    ByteLenConcat(FittingPrefix(line, max), LINE_TRUNC_MARKER);
    assert OneLine(LINE_TRUNC_MARKER);
  }

  /** A cut backs off by less than one character: at most three bytes of the cap stay unused. */
  lemma CutIsNearTheCap(line: string, max: nat)
    requires ByteLen(line) > max
    ensures max - 3 <= ByteLen(FittingPrefix(line, max)) <= max
  {
    var p := FittingPrefix(line, max);
    assert line[..|line|] == line && p == line[..|p|];
    var next := [line[|p|]];
    assert line[..|p| + 1] == p + next;
    ByteLenConcat(p, next);
    assert next[..0] == "";
  }

  lemma {:induction false} AsciiLength(s: string)
    requires forall k :: 0 <= k < |s| ==> s[k] as int < 0x80
    ensures ByteLen(s) == |s|
  {
    if s == "" {
    } else {
      AsciiLength(s[..|s| - 1]);
    }
  }

  lemma MarkerLength()
    ensures ByteLen(LINE_TRUNC_MARKER) == 20
  {
    AsciiLength(LINE_TRUNC_MARKER);
  }

  /**
    Capping works line by line: the output has exactly the capped lines of the input, as many as
    before, none of more than `max` bytes plus the marker's 20.
   */
  lemma CapWorksByLine(s: string, max: nat)
    ensures Split(Cap(s, max)) == CapLines(Split(s), max)
    ensures |Split(Cap(s, max))| == |Split(s)|
    ensures forall k :: 0 <= k < |Split(s)| ==> ByteLen(Split(Cap(s, max))[k]) <= max + 20
  {
    var lines := Split(s);
    SplitGivesLines(s);
    forall k | 0 <= k < |lines|
      ensures OneLine(CapLines(lines, max)[k]) && ByteLen(CapLines(lines, max)[k]) <= max + 20
    {
      assert OneLine(lines[k]);
      CappedLine(lines[k], max);
    }
    SplitOfJoin(CapLines(lines, max));
  }

  /**
    Capping a line again leaves it alone exactly when it was not cut, or was cut right at the cap:
    a cut that had to back off from a wide character leaves room for the marker's first bytes.
   */
  lemma CappingTwice(line: string, max: nat)
    ensures CapLine(CapLine(line, max), max) == CapLine(line, max)
       <==> ByteLen(line) <= max || ByteLen(FittingPrefix(line, max)) == max
  {
    if ByteLen(line) > max {
      var p := FittingPrefix(line, max);
      var once := p + LINE_TRUNC_MARKER;
      MarkerLength();
      ByteLenConcat(p, LINE_TRUNC_MARKER);
      CutIsNearTheCap(line, max);
      RoomForMarker(p, max);
      assert ByteLen(once) > max;
    }
  }

  /** The prefix kept of a cut line is all that fits of `prefix + marker` only if it fills the cap. */
  lemma RoomForMarker(p: string, max: nat)
    requires ByteLen(p) <= max < ByteLen(p + LINE_TRUNC_MARKER)
    ensures FittingPrefix(p + LINE_TRUNC_MARKER, max) == p <==> ByteLen(p) == max
  {
    var once := p + LINE_TRUNC_MARKER;
    var again := FittingPrefix(once, max);
    assert LINE_TRUNC_MARKER[0] == ' ' && once[|p|] == LINE_TRUNC_MARKER[0];
    assert p == once[..|p|] && again == once[..|again|];
    assert once[..|p| + 1] == once[..|p|] + [once[|p|]] == p + " ";
    ByteLenConcat(p, " ");
    AsciiLength(" ");
    if ByteLen(p) == max && |again| > |p| {
      ByteLenGrows(once, |p|, |again|);
    }
  }

  /** What the sanitiser's own cap does to a line: 2048 bytes of whole characters, and the marker. */
  lemma LongLineIsMarked(line: string) returns (kept: string)
    ensures ByteLen(line) <= 2048 ==> CapLine(line, MAX_LINE_BYTES) == line
    ensures ByteLen(line) > 2048 ==>
      CapLine(line, MAX_LINE_BYTES) == kept + " ...[line truncated]" && IsLongestPrefix(line, 2048, kept)
  {
    kept := FittingPrefix(line, 2048);
  }

  /** UTF-8 gives n bytes room for 7, 11, 16 and 21 bits; a character takes as few as hold it. */
  lemma Utf8IsShortest(c: char, n: nat)
    requires 1 <= n <= 4
    ensures Utf8Len(c) <= n <==>
      (c as int) < (if n == 1 then 128 else if n == 2 then 2048 else if n == 3 then 65536 else 2097152)
  {
  }

  // ------------------------------------------------------------ the pipeline

  lemma {:induction false} JoinIsClean(lines: seq<string>)
    requires |lines| >= 1 && forall k :: 0 <= k < |lines| ==> Clean(lines[k])
    ensures Clean(Join(lines))
  {
    if |lines| > 1 {
      JoinIsClean(lines[1..]);
    }
  }

  lemma {:induction false} SplitIsClean(s: string)
    requires Clean(s)
    ensures forall k :: 0 <= k < |Split(s)| ==> Clean(Split(s)[k])
    decreases |s|
  {
    if s == "" {
    } else {
      assert forall k :: 0 <= k < |s[1..]| ==> s[1..][k] == s[k + 1];
      SplitIsClean(s[1..]);
    }
  }

  /** What reaches the model: no escape or control character, and no line over 2068 bytes. */
  method SanitizeLogs(input: string) returns (out: string)
    ensures out == Cap(Strip(input), MAX_LINE_BYTES)
    ensures Clean(out)
    ensures forall k :: 0 <= k < |Split(out)| ==> ByteLen(Split(out)[k]) <= 2068
  {
    var stripped := StripControlBytes(input);
    out := CapLineLength(stripped, MAX_LINE_BYTES);
    SanitizedIsClean(input);
    CapWorksByLine(stripped, MAX_LINE_BYTES);
  }

  lemma SanitizedIsClean(input: string)
    ensures Clean(Cap(Strip(input), MAX_LINE_BYTES))
  {
    var stripped := Strip(input);
    StripIsClean(Text, input);
    SplitIsClean(stripped);
    var lines := Split(stripped);
    forall k | 0 <= k < |lines| ensures Clean(CapLines(lines, MAX_LINE_BYTES)[k]) {
      assert Clean(lines[k]);
      assert Clean(LINE_TRUNC_MARKER);
    }
    JoinIsClean(CapLines(lines, MAX_LINE_BYTES));
  }
}

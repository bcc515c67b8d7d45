/** Conversion of timestamped LRC lyrics into SRT subtitles (file_processor.py). */
module FileProcessor {
  import opened Wrappers
  import opened Text

  // ---------------------------------------------------------------- decimal numerals

  predicate AllDigits(s: string) {
    forall i :: 0 <= i < |s| ==> IsDigit(s[i])
  }

  function DigitValue(c: char): nat
    requires IsDigit(c)
  {
    c as int - '0' as int
  }

  function DigitChar(d: nat): (c: char)
    requires d < 10
    ensures IsDigit(c) && DigitValue(c) == d
  {
    ('0' as int + d) as char
  }

  /** The value of a decimal numeral; leading zeros are allowed, as in Python's `int()`. */
  function ParseNat(s: string): nat
    requires AllDigits(s)
  {
    if s == [] then 0 else 10 * ParseNat(s[..|s| - 1]) + DigitValue(s[|s| - 1])
  }

  /** Python's `str(n)` for a natural number. */
  function NatToString(n: nat): (r: string)
    ensures AllDigits(r) && r != []
  {
    if n < 10 then [DigitChar(n)] else NatToString(n / 10) + [DigitChar(n % 10)]
  }

  function Zeros(k: nat): (r: string)
    ensures |r| == k && AllDigits(r)
  {
    seq(k, i => '0')
  }

  /** Python's `f"{n:0w}"`: `n` in decimal, left-padded with zeros to at least `w` digits. */
  function Pad(n: nat, w: nat): (r: string)
    ensures AllDigits(r) && |r| >= w
  {
    var d := NatToString(n);
    if |d| < w then Zeros(w - |d|) + d else d
  }

  lemma {:induction false} NatToStringValue(n: nat)
    ensures ParseNat(NatToString(n)) == n
  {
    if n >= 10 {
      var s := NatToString(n);
      assert s[..|s| - 1] == NatToString(n / 10);
      NatToStringValue(n / 10);
    }
  }

  lemma {:induction false} NatToStringShort(n: nat, w: nat, bound: nat)
    requires w >= 1 && bound == Pow10(w) && n < bound
    ensures |NatToString(n)| <= w
  {
    if n >= 10 {
      assert w >= 2;
      NatToStringShort(n / 10, w - 1, Pow10(w - 1));
    }
  }

  function Pow10(w: nat): nat {
    if w == 0 then 1 else 10 * Pow10(w - 1)
  }

  lemma {:induction false} ZerosValue(z: string, d: string)
    requires AllDigits(z) && AllDigits(d) && forall i :: 0 <= i < |z| ==> z[i] == '0'
    ensures AllDigits(z + d) && ParseNat(z + d) == ParseNat(d)
    decreases |d|
  {
    if d == [] {
      assert z + d == z;
      ZerosParse(z);
    } else {
      var zd := z + d;
      assert zd[..|zd| - 1] == z + d[..|d| - 1];
      ZerosValue(z, d[..|d| - 1]);
    }
  }

  lemma {:induction false} ZerosParse(z: string)
    requires AllDigits(z) && forall i :: 0 <= i < |z| ==> z[i] == '0'
    ensures ParseNat(z) == 0
  {
    if z != [] { ZerosParse(z[..|z| - 1]); }
  }

  /** Padding does not change the value of a numeral. */
  lemma PadValue(n: nat, w: nat)
    ensures ParseNat(Pad(n, w)) == n
  {
    var d := NatToString(n);
    NatToStringValue(n);
    if |d| < w { ZerosValue(Zeros(w - |d|), d); }
  }

  /** A number below `10^w` pads to exactly `w` digits. */
  lemma PadWidth(n: nat, w: nat)
    requires w >= 1 && n < Pow10(w)
    ensures |Pad(n, w)| == w
  {
    NatToStringShort(n, w, Pow10(w));
  }

  // ---------------------------------------------------------------- timecodes

  /** `format_time`: `HH:MM:SS,mmm` from a time in milliseconds. Hours are not wrapped. */
  function Timecode(ms: nat): string {
    var secs := ms / 1000;
    Pad(secs / 3600, 2) + ":" + Pad(secs / 60 % 60, 2) + ":" + Pad(secs % 60, 2) + "," + Pad(ms % 1000, 3)
  }

  /** Reads a timecode `H..H:MM:SS,mmm` back into milliseconds. */
  function ParseTimecode(t: string): Option<nat> {
    if |t| < 12 then None
    else
      var n := |t|;
      var h, m, s, l := t[..n - 10], t[n - 9..n - 7], t[n - 6..n - 4], t[n - 3..];
      if t[n - 10] == ':' && t[n - 7] == ':' && t[n - 4] == ','
         && AllDigits(h) && AllDigits(m) && AllDigits(s) && AllDigits(l)
      then Some(ParseNat(h) * 3600000 + ParseNat(m) * 60000 + ParseNat(s) * 1000 + ParseNat(l))
      else None
  }

  lemma HourSplit(secs: nat)
    ensures secs == secs / 3600 * 3600 + secs / 60 % 60 * 60 + secs % 60
  {
    var q := secs / 60;
    assert secs == q * 60 + secs % 60;
    assert q == q / 60 * 60 + q % 60;
    assert secs / 3600 == q / 60;
  }

  /** Every timecode reads back as the time it was made from: minutes and seconds take two
      digits below 60, milliseconds three digits below 1000, and hours at least two digits. */
  lemma TimecodeRoundTrip(ms: nat)
    ensures ParseTimecode(Timecode(ms)) == Some(ms)
  {
    var secs := ms / 1000;
    var H, M, S, L := Pad(secs / 3600, 2), Pad(secs / 60 % 60, 2), Pad(secs % 60, 2), Pad(ms % 1000, 3);
    assert Pow10(2) == 100 && Pow10(3) == 1000;
    PadWidth(secs / 60 % 60, 2);
    PadWidth(secs % 60, 2);
    PadWidth(ms % 1000, 3);
    TimecodeCuts(H, M, S, L);
    PadValue(secs / 3600, 2);
    PadValue(secs / 60 % 60, 2);
    PadValue(secs % 60, 2);
    PadValue(ms % 1000, 3);
    HourSplit(secs);
  }

  lemma TimecodeCuts(H: string, M: string, S: string, L: string)
    requires |M| == 2 && |S| == 2 && |L| == 3
    ensures var t := H + ":" + M + ":" + S + "," + L; var n := |t|;
      && n == |H| + 10 && t[n - 10] == ':' && t[n - 7] == ':' && t[n - 4] == ','
      && t[..n - 10] == H && t[n - 9..n - 7] == M && t[n - 6..n - 4] == S && t[n - 3..] == L
  {
    var t := H + ":" + M + ":" + S + "," + L;
    var n := |t|;
    assert t[..n - 10] == H;
    assert t[n - 9..n - 7] == M;
    assert t[n - 6..n - 4] == S;
    assert t[n - 3..] == L;
  }

  // ---------------------------------------------------------------- LRC lines

  /** Python `str.splitlines()` line boundaries. */
  const LineBreaks: set<char> := {
    '\n', '\r', '\U{B}', '\U{C}', '\U{1C}', '\U{1D}', '\U{1E}', '\U{85}', '\U{2028}', '\U{2029}'
  }

  /** `s.splitlines()` from `start`, scanning at `i`: `\r\n` counts as one boundary, and a
      boundary at the very end does not open an empty last line. */
  function SplitLinesFrom(s: string, start: nat, i: nat): (r: seq<string>)
    requires start <= i <= |s|
    requires forall j :: start <= j < i ==> s[j] !in LineBreaks
    ensures forall k, j :: 0 <= k < |r| && 0 <= j < |r[k]| ==> r[k][j] !in LineBreaks
    decreases |s| - i
  {
    if i == |s| then (if start < |s| then [s[start..]] else [])
    else if s[i] in LineBreaks then
      var next := if s[i] == '\r' && i + 1 < |s| && s[i + 1] == '\n' then i + 2 else i + 1;
      [s[start..i]] + SplitLinesFrom(s, next, next)
    else SplitLinesFrom(s, start, i + 1)
  }

  function SplitLines(s: string): seq<string> {
    SplitLinesFrom(s, 0, 0)
  }

  /** A `\n` at `p` with no boundary before it in the current line ends that line. */
  lemma {:induction false} LineUpTo(s: string, start: nat, i: nat, p: nat)
    requires start <= i <= p < |s| && s[p] == '\n'
    requires forall j :: start <= j < p ==> s[j] !in LineBreaks
    ensures SplitLinesFrom(s, start, i) == [s[start..p]] + SplitLinesFrom(s, p + 1, p + 1)
    decreases p - i
  {
    if i < p {
      LineUpTo(s, start, i + 1, p);
    }
  }

  /** Without a further boundary the rest of the text is the last line. */
  lemma {:induction false} LastLine(s: string, start: nat, i: nat)
    requires start <= i <= |s| && start < |s|
    requires forall j :: start <= j < |s| ==> s[j] !in LineBreaks
    ensures SplitLinesFrom(s, start, i) == [s[start..]]
    decreases |s| - i
  {
    if i < |s| {
      LastLine(s, start, i + 1);
    }
  }

  /** The first index at or after `k` that does not hold a digit. */
  function DigitsEnd(s: string, k: nat): (e: nat)
    requires k <= |s|
    ensures k <= e <= |s|
    ensures forall j :: k <= j < e ==> IsDigit(s[j])
    ensures e < |s| ==> !IsDigit(s[e])
    decreases |s| - k
  {
    if k < |s| && IsDigit(s[k]) then DigitsEnd(s, k + 1) else k
  }

  /** The groups of `\[(\d+):(\d+\.\d+)\](.*)` matched at the start of a line. */
  datatype Stamp = Stamp(minutes: string, seconds: string, fraction: string, rest: string)

  predicate WellFormed(st: Stamp) {
    st.minutes != [] && st.seconds != [] && st.fraction != []
    && AllDigits(st.minutes) && AllDigits(st.seconds) && AllDigits(st.fraction)
  }

  function StampText(st: Stamp): string {
    "[" + st.minutes + ":" + st.seconds + "." + st.fraction + "]" + st.rest
  }

  /** `pattern.match(line)`. */
  function MatchStamp(line: string): (r: Option<Stamp>)
    ensures r.Some? ==> WellFormed(r.value) && StampText(r.value) == line
  {
    if line == [] || line[0] != '[' then None
    else
      var m := DigitsEnd(line, 1);
      if m == 1 || m == |line| || line[m] != ':' then None
      else
        var s := DigitsEnd(line, m + 1);
        if s == m + 1 || s == |line| || line[s] != '.' then None
        else
          var f := DigitsEnd(line, s + 1);
          if f == s + 1 || f == |line| || line[f] != ']' then None
          else
            var st := Stamp(line[1..m], line[m + 1..s], line[s + 1..f], line[f + 1..]);
            StampTextOfCuts(line, m, s, f);
            Some(st)
  }

  /** Cutting a line at its three delimiters and gluing the pieces back gives the line. */
  lemma StampTextOfCuts(line: string, m: nat, s: nat, f: nat)
    requires 1 <= m < s < f < |line|
    requires line[0] == '[' && line[m] == ':' && line[s] == '.' && line[f] == ']'
    ensures StampText(Stamp(line[1..m], line[m + 1..s], line[s + 1..f], line[f + 1..])) == line
  {
    var x1 := "[" + line[1..m];
    assert x1 == line[..m];
    var x2 := x1 + ":";
    assert x2 == line[..m + 1];
    var x3 := x2 + line[m + 1..s];
    assert x3 == line[..s];
    var x4 := x3 + ".";
    assert x4 == line[..s + 1];
    var x5 := x4 + line[s + 1..f];
    assert x5 == line[..f];
    var x6 := x5 + "]";
    assert x6 == line[..f + 1];
    assert x6 + line[f + 1..] == line;
  }

  /** The match is exact: every line that has the LRC shape is matched with its own groups. */
  lemma MatchStampComplete(st: Stamp)
    requires WellFormed(st)
    ensures MatchStamp(StampText(st)) == Some(st)
  {
    var m := 1 + |st.minutes|;
    var s := m + 1 + |st.seconds|;
    var f := s + 1 + |st.fraction|;
    StampLayout(st, m, s, f);
  }

  /** Where the delimiters of a stamped line sit, and what the digit scans find. */
  lemma StampLayout(st: Stamp, m: nat, s: nat, f: nat)
    requires WellFormed(st)
    requires m == 1 + |st.minutes| && s == m + 1 + |st.seconds| && f == s + 1 + |st.fraction|
    ensures var line := StampText(st);
      && f < |line| && line[0] == '[' && line[m] == ':' && line[s] == '.' && line[f] == ']'
      && DigitsEnd(line, 1) == m && DigitsEnd(line, m + 1) == s && DigitsEnd(line, s + 1) == f
      && line[1..m] == st.minutes && line[m + 1..s] == st.seconds
      && line[s + 1..f] == st.fraction && line[f + 1..] == st.rest
  {
    var line := StampText(st);
    var p1 := "[" + st.minutes;
    var p2 := p1 + ":" + st.seconds;
    var p3 := p2 + "." + st.fraction;
    assert line[1..m] == st.minutes && line[m] == ':' by {
      assert line == p3 + "]" + st.rest;
      assert line[..m] == p1;
    }
    assert line[m + 1..s] == st.seconds && line[s] == '.' by {
      assert line == p3 + "]" + st.rest;
      assert line[..s] == p2;
    }
    assert line[s + 1..f] == st.fraction && line[f] == ']' && line[f + 1..] == st.rest by {
      assert line == p3 + "]" + st.rest;
      assert line[..f] == p3;
    }
    DigitRunOf(line, 1, m, st.minutes);
    DigitRunOf(line, m + 1, s, st.seconds);
    DigitRunOf(line, s + 1, f, st.fraction);
  }

  lemma DigitRunOf(line: string, k: nat, e: nat, digits: string)
    requires k <= e < |line| && line[k..e] == digits && AllDigits(digits) && !IsDigit(line[e])
    ensures DigitsEnd(line, k) == e
  {
    forall j | k <= j < e
      ensures IsDigit(line[j])
    {
      assert line[j] == digits[j - k];
    }
    DigitsRun(line, k, e);
  }

  lemma {:induction false} DigitsRun(s: string, k: nat, e: nat)
    requires k <= e < |s| && !IsDigit(s[e])
    requires forall j :: k <= j < e ==> IsDigit(s[j])
    ensures DigitsEnd(s, k) == e
    decreases e - k
  {
    if k < e { DigitsRun(s, k + 1, e); }
  }

  /** The start of a stamped line in milliseconds: `minutes * 60 + seconds`, with the fraction
      truncated to whole milliseconds. */
  function StampMillis(st: Stamp): nat
    requires WellFormed(st)
  {
    var frac := (st.fraction + "00")[..3];
    ParseNat(st.minutes) * 60000 + ParseNat(st.seconds) * 1000 + ParseNat(frac)
  }

  /** A lyric line: its start in milliseconds and its text. */
  datatype Cue = Cue(start: nat, text: string)

  /** One line of `lrc_to_srt`'s first loop: stamped lines with non-blank text give a cue. */
  function ParseLine(line: string): (r: Option<Cue>)
    ensures r.Some? ==> MatchStamp(line).Some? && r.value.text != []
    ensures r.Some? ==> r.value.text == StripSpace(MatchStamp(line).value.rest)
  {
    match MatchStamp(line)
    case None => None
    case Some(st) =>
      var text := StripSpace(st.rest);
      if text == [] then None else Some(Cue(StampMillis(st), text))
  }

  /** The cues `parse` finds in `lines`, in line order. */
  function Parsed(lines: seq<string>, parse: string -> Option<Cue>): seq<Cue> {
    if lines == [] then []
    else
      var last := parse(lines[|lines| - 1]);
      Parsed(lines[..|lines| - 1], parse) + (if last.Some? then [last.value] else [])
  }

  function CuesOf(lines: seq<string>): seq<Cue> {
    Parsed(lines, ParseLine)
  }

  /** Parsing one more line appends at most that line's cue. */
  lemma CuesOfStep(lines: seq<string>, k: nat)
    requires k < |lines|
    ensures CuesOf(lines[..k + 1]) == CuesOf(lines[..k]) + (if ParseLine(lines[k]).Some? then [ParseLine(lines[k]).value] else [])
  {
    assert lines[..k + 1][..k] == lines[..k];
  }

  /** Two lines that both parse give their two cues, in order. */
  lemma TwoParsed(lines: seq<string>, parse: string -> Option<Cue>, a: Cue, b: Cue)
    requires |lines| == 2 && parse(lines[0]) == Some(a) && parse(lines[1]) == Some(b)
    ensures Parsed(lines, parse) == [a, b]
  {
    var first := lines[..1];
    assert first[..0] == [] && first[0] == lines[0];
    assert Parsed(first, parse) == [a];
    assert lines[..|lines| - 1] == first;
  }

  /** The cues of an LRC text, in line order. */
  function Cues(lrc: Option<string>): seq<Cue> {
    if !Truthy(lrc) then [] else CuesOf(SplitLines(lrc.value))
  }

  // ---------------------------------------------------------------- SRT blocks

  datatype Block = Block(index: nat, start: nat, end: nat, text: string)

  /** The subtitle blocks of a list of cues. */
  function Blocks(cues: seq<Cue>): (bs: seq<Block>)
    ensures |bs| == |cues|
    ensures forall i :: 0 <= i < |bs| ==>
      bs[i].index == i + 1 && bs[i].start == cues[i].start && bs[i].text == cues[i].text
    ensures forall i :: 0 <= i < |bs| - 1 ==> bs[i].end == bs[i + 1].start
    ensures |bs| > 0 ==> bs[|bs| - 1].end == bs[|bs| - 1].start + 4000
  {
    seq(|cues|, i requires 0 <= i < |cues| => BlockAt(cues, i))
  }

  /** Block `i` ends where the next cue starts, the last one four seconds after its own start. */
  function BlockAt(cues: seq<Cue>, i: nat): Block
    requires i < |cues|
  {
    var end := if i + 1 < |cues| then cues[i + 1].start else cues[i].start + 4000;
    Block(i + 1, cues[i].start, end, cues[i].text)
  }

  function BlockLines(b: Block): seq<string> {
    [NatToString(b.index), Timecode(b.start) + " --> " + Timecode(b.end), b.text, ""]
  }

  /** The lines of `render` applied to each block, in block order. */
  function Rendered(bs: seq<Block>, render: Block -> seq<string>): seq<string> {
    if bs == [] then [] else Rendered(bs[..|bs| - 1], render) + render(bs[|bs| - 1])
  }

  function SrtLines(bs: seq<Block>): seq<string> {
    Rendered(bs, BlockLines)
  }

  /** Rendering one more block appends that block's four lines. */
  lemma SrtLinesStep(bs: seq<Block>, i: nat)
    requires i < |bs|
    ensures SrtLines(bs[..i + 1]) == SrtLines(bs[..i]) + BlockLines(bs[i])
  {
    assert bs[..i + 1][..i] == bs[..i];
  }

  /** The SRT text of a list of cues. */
  function SrtText(cues: seq<Cue>): string {
    if cues == [] then "" else Join(SrtLines(Blocks(cues)), "\n")
  }

  /** The SRT text of an LRC text: empty when no line qualifies. */
  function Srt(lrc: Option<string>): string {
    SrtText(Cues(lrc))
  }

  /** With a renderer of four lines per block, block `i` owns lines `4i` to `4i + 3`. */
  lemma {:induction false} RenderedLayout(bs: seq<Block>, render: Block -> seq<string>)
    requires forall b :: |render(b)| == 4
    ensures |Rendered(bs, render)| == 4 * |bs|
    ensures forall i :: 0 <= i < |bs| ==> Rendered(bs, render)[4 * i..4 * i + 4] == render(bs[i])
  {
    if bs != [] {
      var init := bs[..|bs| - 1];
      RenderedLayout(init, render);
      var s := Rendered(bs, render);
      forall i | 0 <= i < |bs|
        ensures s[4 * i..4 * i + 4] == render(bs[i])
      {
        if i < |init| {
          assert s[4 * i..4 * i + 4] == Rendered(init, render)[4 * i..4 * i + 4];
          assert bs[i] == init[i];
        }
      }
    }
  }

  lemma BlockLinesShape(b: Block)
    ensures |BlockLines(b)| == 4 && BlockLines(b)[2] == b.text && BlockLines(b)[3] == ""
  {
  }

  /** The SRT lines: four per block, in block order: the index, the time range, the text and a
      blank line. */
  lemma SrtLinesLayout(bs: seq<Block>)
    ensures |SrtLines(bs)| == 4 * |bs|
    ensures forall i :: 0 <= i < |bs| ==> SrtLines(bs)[4 * i..4 * i + 4] == BlockLines(bs[i])
  {
    forall b {
      BlockLinesShape(b);
    }
    RenderedLayout(bs, BlockLines);
  }

  /** Lines ending in `t` and a blank line join into a text ending in `sep`, `t`, `sep`. */
  lemma JoinEnding(lines: seq<string>, t: string, sep: string)
    requires |lines| >= 3 && lines[|lines| - 2] == t && lines[|lines| - 1] == ""
    ensures EndsWith(Join(lines, sep), sep + t + sep)
  {
    var q := lines[..|lines| - 2];
    assert lines == q + [t] + [""];
    JoinTwoLast(q, t, sep);
    EndsWithAppend(Join(q, sep), sep + t + sep);
  }

  /** The text is empty exactly for no cues; otherwise it ends with the last text and a newline. */
  lemma SrtTextShape(cues: seq<Cue>)
    ensures SrtText(cues) == "" <==> cues == []
    ensures cues != [] ==> EndsWith(SrtText(cues), "\n" + cues[|cues| - 1].text + "\n")
  {
    if cues != [] {
      var bs := Blocks(cues);
      var last := bs[|bs| - 1];
      BlockLinesShape(last);
      var lines := SrtLines(bs);
      assert lines == SrtLines(bs[..|bs| - 1]) + BlockLines(last);
      JoinEnding(lines, last.text, "\n");
    }
  }

  /** The SRT text is empty exactly when no line qualifies (in particular for a falsy input);
      otherwise it ends with the last cue's text and a newline. */
  lemma SrtShape(lrc: Option<string>)
    ensures !Truthy(lrc) ==> Srt(lrc) == ""
    ensures Srt(lrc) == "" <==> Cues(lrc) == []
    ensures Cues(lrc) != [] ==> EndsWith(Srt(lrc), "\n" + Cues(lrc)[|Cues(lrc)| - 1].text + "\n")
  {
    SrtTextShape(Cues(lrc));
  }

  /** Minutes are not bounded: `[75:00.00]` starts at `01:15:00,000`. */
  lemma LongMinutes(st: Stamp)
    requires st == Stamp("75", "00", "00", "x")
    ensures WellFormed(st) && Timecode(StampMillis(st)) == "01:15:00,000"
  {
    SeventyFiveMinutes(st);
    HourAndQuarter(StampMillis(st));
  }

  lemma SeventyFiveMinutes(st: Stamp)
    requires st == Stamp("75", "00", "00", "x")
    ensures WellFormed(st) && StampMillis(st) == 4500000
  {
    assert ParseNat("75") == 75 by {
      assert "75"[..1] == "7";
      assert "7"[..0] == "";
    }
    assert ParseNat("00") == 0 by {
      assert "00"[..1] == "0";
      assert "0"[..0] == "";
    }
    assert (st.fraction + "00")[..3] == "000";
    assert ParseNat("000") == 0 by {
      assert "000"[..2] == "00";
    }
  }

  lemma HourAndQuarter(ms: nat)
    requires ms == 4500000
    ensures Timecode(ms) == "01:15:00,000"
  {
    var secs := ms / 1000;
    assert secs / 3600 == 1 && secs / 60 % 60 == 15 && secs % 60 == 0 && ms % 1000 == 0;
    PadSmall(1, 2, "01");
    PadSmall(0, 2, "00");
    PadSmall(0, 3, "000");
    PadFifteen();
  }

  lemma PadSmall(n: nat, w: nat, r: string)
    requires n < 10 && 1 <= w && r == Zeros(w - 1) + [DigitChar(n)]
    ensures Pad(n, w) == r
  {
  }

  lemma PadFifteen()
    ensures Pad(15, 2) == "15"
  {
    assert NatToString(15) == NatToString(1) + [DigitChar(5)];
  }

  /** A stamped line with non-blank, already trimmed text gives the cue of its stamp. */
  lemma StampedLine(st: Stamp)
    requires WellFormed(st) && st.rest != [] && !IsSpace(st.rest[0]) && !IsSpace(st.rest[|st.rest| - 1])
    ensures ParseLine(StampText(st)) == Some(Cue(StampMillis(st), st.rest))
  {
    MatchStampComplete(st);
    StripKeeps(st.rest, Whitespace);
  }

  /** `[00:0d.00]` starts at `d` seconds. */
  lemma SecondsStamp(st: Stamp, d: char)
    requires IsDigit(d) && st.minutes == "00" && st.seconds == ['0', d] && st.fraction == "00"
    ensures WellFormed(st) && StampMillis(st) == DigitValue(d) * 1000
  {
    ZerosParse("00");
    ZerosParse("000");
    assert (st.fraction + "00")[..3] == "000";
    assert st.seconds == "0" + [d];
    ZerosValue("0", [d]);
    assert [d][..0] == [];
    assert ParseNat([d]) == DigitValue(d);
  }

  /** Text without line breaks. */
  predicate Unbroken(s: string) {
    forall j :: 0 <= j < |s| ==> s[j] !in LineBreaks
  }

  /** Two unbroken lines joined by `\n` split back into those two lines. */
  lemma TwoLines(a: string, b: string, lrc: string)
    requires a != [] && b != [] && Unbroken(a) && Unbroken(b) && lrc == a + "\n" + b
    ensures SplitLines(lrc) == [a, b]
  {
    var p := |a|;
    assert lrc[p] == '\n' && lrc[..p] == a && lrc[p + 1..] == b;
    assert forall j :: 0 <= j < p ==> lrc[j] == a[j];
    assert forall j :: p + 1 <= j < |lrc| ==> lrc[j] == b[j - p - 1];
    LineUpTo(lrc, 0, 0, p);
    LastLine(lrc, p + 1, p + 1);
  }

  /** A stamped line whose text is non-blank, already trimmed and unbroken. */
  predicate PlainLine(st: Stamp) {
    WellFormed(st) && st.rest != [] && !IsSpace(st.rest[0]) && !IsSpace(st.rest[|st.rest| - 1])
    && Unbroken(st.rest)
  }

  /** The stamp itself holds no line break. */
  lemma StampUnbroken(st: Stamp)
    requires PlainLine(st)
    ensures Unbroken(StampText(st))
  {
    var head := "[" + st.minutes + ":" + st.seconds + "." + st.fraction + "]";
    assert StampText(st) == head + st.rest;
    assert Unbroken("[" + st.minutes);
    assert Unbroken("[" + st.minutes + ":" + st.seconds);
    assert Unbroken("[" + st.minutes + ":" + st.seconds + "." + st.fraction);
    assert Unbroken(head);
  }

  /** Two cues give two blocks: the first lasts until the second starts, the second four
      seconds. */
  lemma TwoBlocks(cues: seq<Cue>, a: Cue, b: Cue)
    requires cues == [a, b]
    ensures Blocks(cues) == [Block(1, a.start, b.start, a.text), Block(2, b.start, b.start + 4000, b.text)]
  {
    var bs := Blocks(cues);
    assert bs[0] == Block(1, a.start, b.start, a.text);
    assert bs[1] == Block(2, b.start, b.start + 4000, b.text);
  }

  /** Two stamped lines joined by `\n` give the cues of their stamps. */
  lemma TwoStampedCues(sa: Stamp, sb: Stamp, lrc: string)
    requires PlainLine(sa) && PlainLine(sb) && lrc == StampText(sa) + "\n" + StampText(sb)
    ensures Cues(Some(lrc)) == [Cue(StampMillis(sa), sa.rest), Cue(StampMillis(sb), sb.rest)]
  {
    StampUnbroken(sa);
    StampUnbroken(sb);
    TwoLines(StampText(sa), StampText(sb), lrc);
    StampedLine(sa);
    StampedLine(sb);
    TwoParsed(SplitLines(lrc), ParseLine, Cue(StampMillis(sa), sa.rest), Cue(StampMillis(sb), sb.rest));
  }

  /** Two stamped lines give two blocks, the first ending where the second starts. */
  lemma TwoStampedLines(sa: Stamp, sb: Stamp, lrc: string)
    requires PlainLine(sa) && PlainLine(sb) && lrc == StampText(sa) + "\n" + StampText(sb)
    ensures Blocks(Cues(Some(lrc))) == [
      Block(1, StampMillis(sa), StampMillis(sb), sa.rest),
      Block(2, StampMillis(sb), StampMillis(sb) + 4000, sb.rest)]
  {
    TwoStampedCues(sa, sb, lrc);
    TwoBlocks(Cues(Some(lrc)), Cue(StampMillis(sa), sa.rest), Cue(StampMillis(sb), sb.rest));
  }

  /** `lrc_to_srt(lrc_text)`. */
  method LrcToSrt(lrc: Option<string>) returns (srt: string)
    ensures srt == Srt(lrc)
  {
    if !Truthy(lrc) {
      return "";
    }
    var lines := SplitLines(lrc.value);
    var parsed: seq<Cue> := [];
    for k := 0 to |lines|
      invariant parsed == CuesOf(lines[..k])
    {
      var cue := ParseLine(lines[k]);
      CuesOfStep(lines, k);
      if cue.Some? {
        parsed := parsed + [cue.value];
      }
    }
    assert lines[..|lines|] == lines;
    if parsed == [] {
      return "";
    }
    var output: seq<string> := [];
    var index := 1;
    ghost var blocks := Blocks(parsed);
    for i := 0 to |parsed|
      invariant index == i + 1
      invariant output == SrtLines(blocks[..i])
    {
      var start := parsed[i].start;
      var end := if i + 1 < |parsed| then parsed[i + 1].start else start + 4000;
      SrtLinesStep(blocks, i);
      assert blocks[i] == Block(index, start, end, parsed[i].text);
      output := output + [NatToString(index), Timecode(start) + " --> " + Timecode(end), parsed[i].text, ""];
      index := index + 1;
    }
    assert blocks[..|parsed|] == blocks;
    srt := Join(output, "\n");
  }
}

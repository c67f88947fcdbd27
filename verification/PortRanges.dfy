/** apps/node_man/models.py: the port range parser of a process's control settings. */
module PortRanges {
  import opened Options

  const MIN_PORT := 1
  const MAX_PORT := 65535

  datatype Range = Range(lo: int, hi: int)

  predicate Valid(r: Range) {
    MIN_PORT <= r.lo <= r.hi <= MAX_PORT
  }

  // ----- Python's string operations, on ASCII -----

  predicate IsSpace(c: char) {
    var code := c as int;
    code == 32 || 9 <= code <= 13 || 28 <= code <= 31
  }

  function LStrip(s: string): string {
    if s != "" && IsSpace(s[0]) then LStrip(s[1..]) else s
  }

  function RStrip(s: string): string {
    if s != "" && IsSpace(s[|s| - 1]) then RStrip(s[..|s| - 1]) else s
  }

  function Strip(s: string): string {
    RStrip(LStrip(s))
  }

  predicate IsDigitChar(c: char) {
    '0' <= c <= '9'
  }

  predicate IsDigits(s: string) {
    s != "" && forall i :: 0 <= i < |s| ==> IsDigitChar(s[i])
  }

  /** int() on digits; leading zeros are allowed. */
  function IntOf(s: string): int
    requires forall i :: 0 <= i < |s| ==> IsDigitChar(s[i])
  {
    if s == "" then 0 else 10 * IntOf(s[..|s| - 1]) + (s[|s| - 1] as int - '0' as int)
  }

  /** str.split: the pieces between the separators, at least one. */
  function Split(s: string, sep: char): seq<string> {
    if s == "" then [""]
    else if s[0] == sep then [""] + Split(s[1..], sep)
    else var rest := Split(s[1..], sep); [[s[0]] + rest[0]] + rest[1..]
  }

  function Join(pieces: seq<string>, sep: char): string {
    if pieces == [] then "" else if |pieces| == 1 then pieces[0] else pieces[0] + [sep] + Join(pieces[1..], sep)
  }

  /** Splitting undoes joining when no piece has the separator in it. */
  lemma {:induction false} SplitJoin(pieces: seq<string>, sep: char)
    requires pieces != [] && forall i :: 0 <= i < |pieces| ==> sep !in pieces[i]
    ensures Split(Join(pieces, sep), sep) == pieces
  {
    if |pieces| == 1 {
      SplitPlain(pieces[0], sep);
    } else {
      SplitJoin(pieces[1..], sep);
      SplitFirst(pieces[0], Join(pieces[1..], sep), sep);
    }
  }

  lemma {:induction false} SplitPlain(s: string, sep: char)
    requires sep !in s
    ensures Split(s, sep) == [s]
  {
    if s != "" {
      assert forall c :: c in s[1..] ==> c in s;
      SplitPlain(s[1..], sep);
      assert [s[0]] + s[1..] == s;
    }
  }

  lemma {:induction false} SplitFirst(a: string, rest: string, sep: char)
    requires sep !in a
    ensures Split(a + [sep] + rest, sep) == [a] + Split(rest, sep)
  {
    var s := a + [sep] + rest;
    if a == "" {
      assert s[1..] == rest;
    } else {
      assert s[1..] == a[1..] + [sep] + rest;
      assert forall c :: c in a[1..] ==> c in a;
      SplitFirst(a[1..], rest, sep);
      assert [a[0]] + a[1..] == a;
    }
  }

  /** Joining undoes splitting, and no piece has the separator in it. */
  lemma {:induction false} JoinSplit(s: string, sep: char)
    ensures Split(s, sep) != [] && Join(Split(s, sep), sep) == s
    ensures forall i :: 0 <= i < |Split(s, sep)| ==> sep !in Split(s, sep)[i]
  {
    if s != "" {
      JoinSplit(s[1..], sep);
      var rest := Split(s[1..], sep);
      assert s == [s[0]] + s[1..];
      if s[0] == sep {
        assert Split(s, sep)[1..] == rest;
      } else {
        assert Split(s, sep)[1..] == rest[1..];
      }
    }
  }

  // ----- one port -----

  function Digit(d: int): char
    requires 0 <= d <= 9
  {
    ('0' as int + d) as char
  }

  function PrintInt(n: nat): string {
    if n < 10 then [Digit(n)] else PrintInt(n / 10) + [Digit(n % 10)]
  }

  lemma {:induction false} PrintedInt(n: nat)
    ensures PrintInt(n) != "" && forall i :: 0 <= i < |PrintInt(n)| ==> IsDigitChar(PrintInt(n)[i])
    ensures IntOf(PrintInt(n)) == n
  {
    var s := PrintInt(n);
    if n < 10 {
      assert IntOf(s[..0]) == 0;
    } else {
      PrintedInt(n / 10);
      assert s[..|s| - 1] == PrintInt(n / 10);
    }
  }

  /** The digits between the spaces, when they are a port. */
  function PortNum(s: string): Option<int> {
    if IsDigits(Strip(s)) && MIN_PORT <= IntOf(Strip(s)) <= MAX_PORT then Some(IntOf(Strip(s))) else None
  }

  /** Space, tab, line feed, vertical tab, form feed, carriage return and the four separators. */
  const SPACES := " \t\n\U{B}\U{C}\r\U{1C}\U{1D}\U{1E}\U{1F}"

  predicate AllSpaces(s: string) {
    forall i :: 0 <= i < |s| ==> s[i] in SPACES
  }

  lemma SpacesAre(c: char)
    ensures IsSpace(c) <==> c in SPACES
  {
    assert SPACES[0] == ' ' && SPACES[1] == '\t' && SPACES[2] == '\n' && SPACES[3] == '\U{B}' && SPACES[4] == '\U{C}';
    assert SPACES[5] == '\r' && SPACES[6] == '\U{1C}' && SPACES[7] == '\U{1D}' && SPACES[8] == '\U{1E}'
           && SPACES[9] == '\U{1F}';
  }

  lemma {:induction false} LStripPadded(pad: string, s: string)
    requires AllSpaces(pad)
    ensures LStrip(pad + s) == LStrip(s)
  {
    if pad == "" {
      assert pad + s == s;
    } else {
      assert (pad + s)[1..] == pad[1..] + s;
      LStripPadded(pad[1..], s);
    }
  }

  lemma {:induction false} RStripPadded(s: string, pad: string)
    requires AllSpaces(pad)
    ensures RStrip(s + pad) == RStrip(s)
  {
    if pad == "" {
      assert s + pad == s;
    } else {
      assert (s + pad)[..|s + pad| - 1] == s + pad[..|pad| - 1];
      RStripPadded(s, pad[..|pad| - 1]);
    }
  }

  lemma {:induction false} LStripBefore(s: string, pad: string)
    requires AllSpaces(pad)
    ensures LStrip(s + pad) == if LStrip(s) == "" then "" else LStrip(s) + pad
  {
    if s == "" {
      LStripPadded(pad, "");
      assert s + pad == pad + "" == pad;
    } else if IsSpace(s[0]) {
      assert (s + pad)[1..] == s[1..] + pad;
      LStripBefore(s[1..], pad);
    }
  }

  /** Spaces on either side change neither a port nor an error. */
  lemma SpacesAreIgnored(before: string, s: string, after: string)
    requires AllSpaces(before) && AllSpaces(after)
    ensures PortNum(before + s + after) == PortNum(s)
  {
    assert before + s + after == before + (s + after);
    LStripPadded(before, s + after);
    LStripBefore(s, after);
    RStripPadded(LStrip(s), after);
  }

  lemma {:induction false} LStripSplits(s: string) returns (pad: string)
    ensures AllSpaces(pad) && s == pad + LStrip(s)
  {
    pad := "";
    if s != "" && IsSpace(s[0]) {
      pad := LStripSplits(s[1..]);
      pad := [s[0]] + pad;
    }
  }

  lemma {:induction false} RStripSplits(s: string) returns (pad: string)
    ensures AllSpaces(pad) && s == RStrip(s) + pad
  {
    pad := "";
    if s != "" && IsSpace(s[|s| - 1]) {
      pad := RStripSplits(s[..|s| - 1]);
      pad := pad + [s[|s| - 1]];
    }
  }

  predicate AllZeros(s: string) {
    forall i :: 0 <= i < |s| ==> s[i] == '0'
  }

  lemma {:induction false} LeadingZeros(zeros: string, s: string)
    requires AllZeros(zeros) && forall i :: 0 <= i < |s| ==> IsDigitChar(s[i])
    ensures forall i :: 0 <= i < |zeros + s| ==> IsDigitChar((zeros + s)[i])
    ensures IntOf(zeros + s) == IntOf(s)
  {
    if s == "" {
      assert zeros + s == zeros;
      OnlyZeros(zeros);
    } else {
      assert (zeros + s)[..|zeros + s| - 1] == zeros + s[..|s| - 1];
      LeadingZeros(zeros, s[..|s| - 1]);
    }
  }

  lemma {:induction false} OnlyZeros(zeros: string)
    requires AllZeros(zeros)
    ensures IntOf(zeros) == 0
  {
    if zeros != "" {
      OnlyZeros(zeros[..|zeros| - 1]);
    }
  }

  /** Digits are a number as it is printed, after some zeros. */
  lemma {:induction false} DigitsArePrinted(s: string) returns (zeros: string)
    requires IsDigits(s)
    ensures AllZeros(zeros) && IntOf(s) >= 0 && s == zeros + PrintInt(IntOf(s))
  {
    var front, last := s[..|s| - 1], s[|s| - 1];
    assert s == front + [last];
    if front == "" {
      zeros := "";
      assert IntOf(front) == 0;
    } else {
      zeros := DigitsArePrinted(front);
      if IntOf(front) == 0 {
        zeros := front;
      }
    }
  }

  /** A port is printed plainly, but for zeros before it and spaces around it. */
  ghost predicate IsPort(s: string, n: int) {
    1 <= n <= 65535 && exists before, zeros, after :: Frames(s, before, zeros, n, after)
  }

  ghost predicate Frames(s: string, before: string, zeros: string, n: int, after: string) {
    n >= 0 && AllSpaces(before) && AllZeros(zeros) && AllSpaces(after) && s == before + (zeros + PrintInt(n)) + after
  }

  lemma DigitsAreStripped(s: string)
    requires IsDigits(s)
    ensures Strip(s) == s
  {
    assert IsDigitChar(s[0]) && IsDigitChar(s[|s| - 1]);
  }

  lemma PortNumIff(s: string, n: int)
    ensures PortNum(s) == Some(n) <==> IsPort(s, n)
  {
    if PortNum(s) == Some(n) {
      var before := LStripSplits(s);
      var after := RStripSplits(LStrip(s));
      var zeros := DigitsArePrinted(Strip(s));
      assert s == before + (Strip(s) + after) == before + Strip(s) + after;
      assert Frames(s, before, zeros, n, after);
    }
    if IsPort(s, n) {
      var before, zeros, after :| Frames(s, before, zeros, n, after);
      PrintedInt(n);
      LeadingZeros(zeros, PrintInt(n));
      DigitsAreStripped(zeros + PrintInt(n));
      SpacesAreIgnored(before, zeros + PrintInt(n), after);
    }
  }

  /** parse_port_num, on a string. */
  method ParsePortNum(s: string) returns (port: Option<int>)
    ensures port == PortNum(s)
    ensures forall n :: port == Some(n) <==> IsPort(s, n)
  {
    forall n ensures PortNum(s) == Some(n) <==> IsPort(s, n) {
      PortNumIff(s, n);
    }
    var stripped := Strip(s);
    if IsDigits(stripped) {
      var n := IntOf(stripped);
      if MIN_PORT <= n <= MAX_PORT {
        return Some(n);
      }
    }
    return None;
  }

  // ----- the parser -----

  /** One segment: a port, or two with a hyphen between them, the first not above the second. */
  predicate Denotes(segment: string, r: Range) {
    || (PortNum(segment) == Some(r.lo) && r.lo == r.hi)
    || (exists i :: 0 <= i < |segment| && segment[i] == '-'
          && PortNum(segment[..i]) == Some(r.lo) && PortNum(segment[i + 1..]) == Some(r.hi) && r.lo <= r.hi)
  }

  /** One range for each segment between commas, in order; nothing for the empty text. */
  ghost predicate Parses(text: string, ranges: seq<Range>) {
    if text == "" then ranges == [] else
    && |ranges| == |Split(text, ',')|
    && forall i :: 0 <= i < |ranges| ==> Denotes(Split(text, ',')[i], ranges[i])
  }

  /** parse_port_range; None stands for the error. */
  method ParsePortRange(text: string) returns (ranges: Option<seq<Range>>)
    ensures ranges.Some? ==> Parses(text, ranges.value)
    ensures ranges.None? ==> forall rs :: !Parses(text, rs)
  {
    if text == "" {
      return Some([]);
    }
    var segments := Split(text, ',');
    var list: seq<Range> := [];
    for i := 0 to |segments|
      invariant |list| == i && forall j :: 0 <= j < i ==> Denotes(segments[j], list[j])
    {
      var range := ParseSegment(segments[i]);
      if range.None? {
        assert forall rs :: Parses(text, rs) ==> Denotes(segments[i], rs[i]);
        return None;
      }
      list := list + [range.value];
    }
    return Some(list);
  }

  ghost predicate Unparsable(segment: string) {
    forall r :: !Denotes(segment, r)
  }

  method ParseSegment(segment: string) returns (range: Option<Range>)
    ensures range.Some? ==> Denotes(segment, range.value)
    ensures range.None? ==> Unparsable(segment)
  {
    var port := ParsePortNum(segment);
    if port.Some? {
      return Some(Range(port.value, port.value));
    }
    var parts := Split(segment, '-');
    if |parts| != 2 {
      OneHyphen(segment);
      return None;
    }
    TwoParts(segment);
    var lo := ParsePortNum(parts[0]);
    var hi := ParsePortNum(parts[1]);
    if lo.Some? && hi.Some? && lo.value <= hi.value {
      return Some(Range(lo.value, hi.value));
    }
    return None;
  }

  // ----- what the split into two parts means -----

  lemma {:induction false} DigitsSurviveStrip(s: string, c: char)
    requires c in s && !IsSpace(c)
    ensures c in Strip(s)
  {
    LStripKeeps(s, c);
    RStripKeeps(LStrip(s), c);
  }

  lemma {:induction false} LStripKeeps(s: string, c: char)
    requires c in s && !IsSpace(c)
    ensures c in LStrip(s)
  {
    if IsSpace(s[0]) {
      assert s == [s[0]] + s[1..];
      LStripKeeps(s[1..], c);
    }
  }

  lemma {:induction false} RStripKeeps(s: string, c: char)
    requires c in s && !IsSpace(c)
    ensures c in RStrip(s)
  {
    if IsSpace(s[|s| - 1]) {
      assert s == s[..|s| - 1] + [s[|s| - 1]];
      RStripKeeps(s[..|s| - 1], c);
    }
  }

  /** A port number has no hyphen in it. */
  lemma NoHyphen(s: string)
    ensures PortNum(s).Some? ==> '-' !in s
  {
    if '-' in s {
      DigitsSurviveStrip(s, '-');
    }
  }

  /** A hyphen between two port numbers is the only one. */
  lemma HyphenSplits(segment: string, i: nat)
    requires i < |segment| && segment[i] == '-' && PortNum(segment[..i]).Some? && PortNum(segment[i + 1..]).Some?
    ensures Split(segment, '-') == [segment[..i], segment[i + 1..]]
  {
    NoHyphen(segment[..i]);
    NoHyphen(segment[i + 1..]);
    assert segment == segment[..i] + ['-'] + segment[i + 1..];
    SplitFirst(segment[..i], segment[i + 1..], '-');
    SplitPlain(segment[i + 1..], '-');
  }

  lemma OneHyphen(segment: string)
    requires PortNum(segment).None? && |Split(segment, '-')| != 2
    ensures Unparsable(segment)
  {
    forall r ensures !Denotes(segment, r) {
      if Denotes(segment, r) {
        var i :| 0 <= i < |segment| && segment[i] == '-'
                 && PortNum(segment[..i]) == Some(r.lo) && PortNum(segment[i + 1..]) == Some(r.hi) && r.lo <= r.hi;
        HyphenSplits(segment, i);
      }
    }
  }

  lemma TwoParts(segment: string)
    requires PortNum(segment).None? && |Split(segment, '-')| == 2
    ensures var parts := Split(segment, '-');
            forall r :: Denotes(segment, r) <==>
              PortNum(parts[0]) == Some(r.lo) && PortNum(parts[1]) == Some(r.hi) && r.lo <= r.hi
  {
    var parts := Split(segment, '-');
    JoinSplit(segment, '-');
    assert parts[1..] == [parts[1]];
    assert segment == parts[0] + ['-'] + parts[1];
    var n := |parts[0]|;
    assert segment[n] == '-' && segment[..n] == parts[0] && segment[n + 1..] == parts[1];
    forall r | Denotes(segment, r)
      ensures PortNum(parts[0]) == Some(r.lo) && PortNum(parts[1]) == Some(r.hi) && r.lo <= r.hi
    {
      var i :| 0 <= i < |segment| && segment[i] == '-'
               && PortNum(segment[..i]) == Some(r.lo) && PortNum(segment[i + 1..]) == Some(r.hi) && r.lo <= r.hi;
      HyphenSplits(segment, i);
    }
  }

  /** A segment denotes at most one range, which is in order and within the limits. */
  lemma DenotesOne(segment: string, r: Range, q: Range)
    requires Denotes(segment, r) && Denotes(segment, q)
    ensures r == q && 1 <= r.lo <= r.hi <= 65535
  {
    if PortNum(segment).Some? {
      NoHyphen(segment);
    } else {
      var i :| 0 <= i < |segment| && segment[i] == '-'
               && PortNum(segment[..i]) == Some(r.lo) && PortNum(segment[i + 1..]) == Some(r.hi) && r.lo <= r.hi;
      HyphenSplits(segment, i);
      var j :| 0 <= j < |segment| && segment[j] == '-'
               && PortNum(segment[..j]) == Some(q.lo) && PortNum(segment[j + 1..]) == Some(q.hi) && q.lo <= q.hi;
      HyphenSplits(segment, j);
    }
  }

  // ----- the printer -----

  /** "n" or "lo-hi"; a range of one port may be printed either way. */
  function PrintRange(r: Range, hyphen: bool): string
    requires Valid(r)
  {
    if r.lo == r.hi && !hyphen then PrintInt(r.lo) else PrintInt(r.lo) + ['-'] + PrintInt(r.hi)
  }

  function PrintAll(ranges: seq<Range>, hyphens: seq<bool>): seq<string>
    requires |hyphens| == |ranges| && forall i :: 0 <= i < |ranges| ==> Valid(ranges[i])
  {
    seq(|ranges|, i requires 0 <= i < |ranges| => PrintRange(ranges[i], hyphens[i]))
  }

  lemma PrintedPort(n: nat)
    requires MIN_PORT <= n <= MAX_PORT
    ensures PortNum(PrintInt(n)) == Some(n)
  {
    PrintedInt(n);
    var s := PrintInt(n);
    assert IsDigitChar(s[0]) && IsDigitChar(s[|s| - 1]);
    assert LStrip(s) == s && RStrip(s) == s;
  }

  lemma DigitsOnly(n: nat, c: char)
    requires !IsDigitChar(c)
    ensures c !in PrintInt(n)
  {}

  lemma PrintedDenotes(r: Range, hyphen: bool)
    requires Valid(r)
    ensures Denotes(PrintRange(r, hyphen), r)
  {
    PrintedPort(r.lo);
    PrintedPort(r.hi);
    if r.lo != r.hi || hyphen {
      HyphenDenotes(PrintInt(r.lo), PrintInt(r.hi), r);
    }
  }

  lemma HyphenDenotes(a: string, b: string, r: Range)
    requires PortNum(a) == Some(r.lo) && PortNum(b) == Some(r.hi) && r.lo <= r.hi
    ensures Denotes(a + ['-'] + b, r)
  {
    var s, i := a + ['-'] + b, |a|;
    assert s[i] == '-' && s[..i] == a && s[i + 1..] == b;
  }

  lemma PrintedHasNoComma(r: Range, hyphen: bool)
    requires Valid(r)
    ensures ',' !in PrintRange(r, hyphen)
  {
    DigitsOnly(r.lo, ',');
    DigitsOnly(r.hi, ',');
  }

  /** Any printed list, in either style throughout, parses. */
  lemma PrintedParses(ranges: seq<Range>, hyphens: seq<bool>)
    requires |hyphens| == |ranges| && forall i :: 0 <= i < |ranges| ==> Valid(ranges[i])
    ensures Parses(Join(PrintAll(ranges, hyphens), ','), ranges)
  {
    var pieces := PrintAll(ranges, hyphens);
    if ranges != [] {
      forall i | 0 <= i < |ranges| ensures Denotes(pieces[i], ranges[i]) && ',' !in pieces[i] {
        PrintedDenotes(ranges[i], hyphens[i]);
        PrintedHasNoComma(ranges[i], hyphens[i]);
      }
      SplitJoin(pieces, ',');
      PrintedNotEmpty(ranges, hyphens);
    }
  }

  lemma PrintedNotEmpty(ranges: seq<Range>, hyphens: seq<bool>)
    requires |hyphens| == |ranges| && ranges != [] && forall i :: 0 <= i < |ranges| ==> Valid(ranges[i])
    ensures Join(PrintAll(ranges, hyphens), ',') != ""
  {}

  lemma ParsesOne(text: string, ranges: seq<Range>, ranges': seq<Range>)
    requires Parses(text, ranges) && Parses(text, ranges')
    ensures ranges == ranges'
    ensures forall i :: 0 <= i < |ranges| ==> Valid(ranges[i])
  {
    if text != "" {
      forall i | 0 <= i < |ranges| ensures ranges[i] == ranges'[i] && Valid(ranges[i]) {
        DenotesOne(Split(text, ',')[i], ranges[i], ranges'[i]);
      }
    }
  }

  /** Parsing what was printed gives the list back; no text is read in two ways. */
  method RoundTrip(ranges: seq<Range>, hyphens: seq<bool>) returns (parsed: Option<seq<Range>>)
    requires |hyphens| == |ranges| && forall i :: 0 <= i < |ranges| ==> Valid(ranges[i])
    ensures parsed == Some(ranges)
  {
    var text := Join(PrintAll(ranges, hyphens), ',');
    PrintedParses(ranges, hyphens);
    parsed := ParsePortRange(text);
    ParsesOne(text, ranges, parsed.value);
  }
}

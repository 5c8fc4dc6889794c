/** The string operations of the Go library that the models rely on. */
module Text {

  /** strings.Join with a one-character separator. */
  function Join(parts: seq<string>, sep: char): string {
    if parts == [] then ""
    else if |parts| == 1 then parts[0]
    else parts[0] + [sep] + Join(parts[1..], sep)
  }

  /** strings.Split on one character: always at least one part. */
  function Split(s: string, sep: char): (parts: seq<string>)
    ensures parts != []
  {
    if s == "" then [""]
    else
      var rest := Split(s[1..], sep);
      if s[0] == sep then [""] + rest else [[s[0]] + rest[0]] + rest[1..]
  }

  ghost predicate Free(parts: seq<string>, sep: char) {
    forall i :: 0 <= i < |parts| ==> sep !in parts[i]
  }

  lemma {:induction false} JoinSplit(s: string, sep: char)
    ensures Join(Split(s, sep), sep) == s
  {
    if s != "" {
      var rest := Split(s[1..], sep);
      JoinSplit(s[1..], sep);
      if s[0] == sep {
        assert ([""] + rest)[1..] == rest;
      } else {
        assert Split(s, sep)[1..] == rest[1..];
      }
    }
  }

  lemma {:induction false} SplitIsFree(s: string, sep: char)
    ensures Free(Split(s, sep), sep)
  {
    if s != "" {
      SplitIsFree(s[1..], sep);
    }
  }

  /** Splitting text without separators gives it back. */
  lemma {:induction false} SplitFree(s: string, sep: char)
    requires sep !in s
    ensures Split(s, sep) == [s]
  {
    if s != "" {
      SplitFree(s[1..], sep);
      assert [s[0]] + s[1..] == s;
    }
  }

  lemma {:induction false} SplitAtSeparator(s: string, t: string, sep: char)
    requires sep !in s
    ensures Split(s + [sep] + t, sep) == [s] + Split(t, sep)
  {
    var u := s + [sep] + t;
    if s == "" {
      assert u[1..] == t;
    } else {
      assert u[1..] == s[1..] + [sep] + t;
      SplitAtSeparator(s[1..], t, sep);
      assert [s[0]] + s[1..] == s;
      assert ([s[1..]] + Split(t, sep))[1..] == Split(t, sep);
    }
  }

  lemma {:induction false} JoinSnoc(parts: seq<string>, x: string, sep: char)
    requires parts != []
    ensures Join(parts + [x], sep) == Join(parts, sep) + [sep] + x
  {
    assert (parts + [x])[1..] == parts[1..] + [x];
    if |parts| > 1 {
      JoinSnoc(parts[1..], x, sep);
    } else {
      assert parts[1..] + [x] == [x];
    }
  }

  lemma {:induction false} SplitJoin(parts: seq<string>, sep: char)
    requires parts != [] && Free(parts, sep)
    ensures Split(Join(parts, sep), sep) == parts
  {
    if |parts| == 1 {
      SplitFree(parts[0], sep);
    } else {
      assert Free(parts[1..], sep);
      SplitJoin(parts[1..], sep);
      SplitAtSeparator(parts[0], Join(parts[1..], sep), sep);
    }
  }

  lemma {:induction false} JoinConcat(a: seq<string>, b: seq<string>, sep: char)
    requires a != [] && b != []
    ensures Join(a + b, sep) == Join(a, sep) + [sep] + Join(b, sep)
  {
    if |a| == 1 {
      assert (a + b)[1..] == b;
    } else {
      assert (a + b)[1..] == a[1..] + b;
      JoinConcat(a[1..], b, sep);
    }
  }

  lemma {:induction false} SplitStep(s: string, sep: char)
    requires s != ""
    ensures var rest := Split(s[1..], sep);
      Split(s, sep) == if s[0] == sep then [""] + rest else [[s[0]] + rest[0]] + rest[1..]
  { }

  lemma {:induction false} SplitConcat(a: string, b: string, sep: char)
    ensures Split(a + [sep] + b, sep) == Split(a, sep) + Split(b, sep)
  {
    hide Split;
    var s := a + [sep] + b;
    SplitStep(s, sep);
    if a == "" {
      assert s[1..] == b;
      SplitNothing(sep);
    } else {
      SplitStep(a, sep);
      SplitConcat(a[1..], b, sep);
      assert s[1..] == a[1..] + [sep] + b;
      ReplaceHead(Split(a[1..], sep), Split(b, sep), [s[0]]);
    }
  }

  lemma {:induction false} SplitNothing(sep: char)
    ensures Split("", sep) == [""]
  { }

  lemma {:induction false} ReplaceHead(p: seq<string>, r: seq<string>, x: string)
    requires p != []
    ensures [x + (p + r)[0]] + (p + r)[1..] == [x + p[0]] + p[1..] + r
    ensures [""] + (p + r) == [""] + p + r
  { }

  /** strings.Contains */
  predicate Contains(text: string, part: string) {
    part <= text || (text != "" && Contains(text[1..], part))
  }

  lemma {:induction false} ContainsNeedsChars(text: string, part: string, c: char)
    requires c in part && c !in text
    ensures !Contains(text, part)
  {
    assert !(part <= text);
    if text != "" {
      ContainsNeedsChars(text[1..], part, c);
    }
  }

  /** A part whose first character occurs only at the head of the text can only be its prefix. */
  lemma {:induction false} ContainsAtHead(text: string, part: string)
    requires text != "" && part != "" && part[0] !in text[1..]
    ensures Contains(text, part) <==> part <= text
  {
    ContainsNeedsChars(text[1..], part, part[0]);
  }

  lemma {:induction false} PrefixStops(part: string, a: string, sep: char, b: string)
    ensures sep !in part && part <= a + [sep] + b ==> |part| <= |a|
  {
    var text := a + [sep] + b;
    if a != "" && part != "" {
      PrefixStops(part[1..], a[1..], sep, b);
      assert text[1..] == a[1..] + [sep] + b;
      assert part <= text ==> part[1..] <= text[1..];
    } else if part != "" {
      assert part <= text ==> part[0] == text[0];
    }
  }

  /** A part without a character cannot straddle that character. */
  lemma {:induction false} ContainsAcross(a: string, sep: char, b: string, part: string)
    requires sep !in part && part != ""
    ensures Contains(a + [sep] + b, part) <==> Contains(a, part) || Contains(b, part)
  {
    var text := a + [sep] + b;
    PrefixStops(part, a, sep, b);
    if part <= text {
      assert part <= a by { assert text[..|part|] == a[..|part|]; }
    }
    if part <= a {
      assert part <= text by { assert text[..|part|] == a[..|part|]; }
    }
    if a == "" {
      assert text[1..] == b;
    } else {
      assert text[1..] == a[1..] + [sep] + b;
      ContainsAcross(a[1..], sep, b, part);
    }
  }

  /** unicode.IsSpace. */
  predicate IsSpace(c: char) {
    || '\t' <= c <= '\r' || c == ' ' || c == '\U{85}' || c == '\U{A0}' || c == '\U{1680}'
    || '\U{2000}' <= c <= '\U{200A}' || c == '\U{2028}' || c == '\U{2029}' || c == '\U{202F}' || c == '\U{205F}'
      || c == '\U{3000}'
  }

  /** strings.TrimSpace(s) == "". */
  predicate IsBlank(s: string) {
    forall i :: 0 <= i < |s| ==> IsSpace(s[i])
  }

  function TrimSpace(s: string): string {
    if s == "" then ""
    else if IsSpace(s[0]) then TrimSpace(s[1..])
    else if IsSpace(s[|s| - 1]) then TrimSpace(s[..|s| - 1])
    else s
  }

  /** Trimming takes blanks off both ends, and stops at the first character that is none. */
  lemma {:induction false} TrimSpaceIs(s: string) returns (a: string, b: string)
    ensures s == a + TrimSpace(s) + b && IsBlank(a) && IsBlank(b)
    ensures var t := TrimSpace(s); t != "" ==> !IsSpace(t[0]) && !IsSpace(t[|t| - 1])
  {
    hide IsSpace, IsBlank, TrimSpace;
    NothingIsBlank();
    TrimStep(s);
    a, b := "", "";
    if s != "" && IsSpace(s[0]) {
      var c, d := TrimSpaceIs(s[1..]);
      BlankGrows(c, s[0]);
      a, b := [s[0]] + c, d;
      assert s == [s[0]] + s[1..] == [s[0]] + (c + TrimSpace(s[1..]) + d);
    } else if s != "" && IsSpace(s[|s| - 1]) {
      var c, d := TrimSpaceIs(s[..|s| - 1]);
      BlankGrows(d, s[|s| - 1]);
      a, b := c, d + [s[|s| - 1]];
      assert s == s[..|s| - 1] + [s[|s| - 1]];
    }
  }

  lemma {:induction false} TrimStep(s: string)
    ensures TrimSpace(s) ==
      if s == "" then ""
      else if IsSpace(s[0]) then TrimSpace(s[1..])
      else if IsSpace(s[|s| - 1]) then TrimSpace(s[..|s| - 1])
      else s
  {
    hide IsSpace;
  }

  lemma {:induction false} NothingIsBlank()
    ensures IsBlank("")
  { }

  lemma {:induction false} BlankGrows(s: string, c: char)
    requires IsBlank(s) && IsSpace(c)
    ensures IsBlank([c] + s) && IsBlank(s + [c])
  {
    hide IsSpace;
  }

  lemma {:induction false} TrimmedChars(s: string, c: char)
    requires c !in s
    ensures c !in TrimSpace(s)
  {
    if s != "" {
      if IsSpace(s[0]) {
        TrimmedChars(s[1..], c);
      } else if IsSpace(s[|s| - 1]) {
        TrimmedChars(s[..|s| - 1], c);
      }
    }
  }

  /** len(s) of a Go string: its UTF-8 bytes. */
  function ByteLen(s: string): nat {
    if s == "" then 0 else ByteLen(s[..|s| - 1]) + CharBytes(s[|s| - 1])
  }

  function CharBytes(c: char): nat {
    if c < '\U{80}' then 1 else if c < '\U{800}' then 2 else if c < '\U{10000}' then 3 else 4
  }

  lemma {:induction false} ByteLenConcat(a: string, b: string)
    ensures ByteLen(a + b) == ByteLen(a) + ByteLen(b)
  {
    if b == "" {
      assert a + b == a;
    } else {
      assert (a + b)[..|a + b| - 1] == a + b[..|b| - 1];
      ByteLenConcat(a, b[..|b| - 1]);
    }
  }

  /** The UTF-8 encoding of a character (RFC 3629, section 3). */
  function Utf8(c: char): seq<int> {
    var n := c as int;
    if n < 0x80 then [n]
    else if n < 0x800 then [0xC0 + n / 64, 0x80 + n % 64]
    else if n < 0x1_0000 then [0xE0 + n / 4096, 0x80 + n / 64 % 64, 0x80 + n % 64]
    else [0xF0 + n / 262144, 0x80 + n / 4096 % 64, 0x80 + n / 64 % 64, 0x80 + n % 64]
  }

  /** The length of the first character's encoding, by its lead byte; 0 for a byte that leads none. */
  function LeadLength(lead: int): nat {
    if 0 <= lead <= 0x7F then 1
    else if 0xC2 <= lead <= 0xDF then 2
    else if 0xE0 <= lead <= 0xEF then 3
    else if 0xF0 <= lead <= 0xF4 then 4
    else 0
  }

  /** The code point of an encoding, by its length. */
  function CodePoint(b: seq<int>): int {
    if |b| == 1 then b[0]
    else if |b| == 2 then (b[0] - 0xC0) * 64 + (b[1] - 0x80)
    else if |b| == 3 then (b[0] - 0xE0) * 4096 + (b[1] - 0x80) * 64 + (b[2] - 0x80)
    else if |b| == 4 then (b[0] - 0xF0) * 262144 + (b[1] - 0x80) * 4096 + (b[2] - 0x80) * 64 + (b[3] - 0x80)
    else 0
  }

  /** An encoding has the length its lead byte tells and CharBytes counts, is made of bytes, and gives the character. */
  lemma {:induction false} Utf8RoundTrip(c: char)
    ensures |Utf8(c)| == CharBytes(c) == LeadLength(Utf8(c)[0]) && CodePoint(Utf8(c)) == c as int
    ensures forall i :: 0 < i < |Utf8(c)| ==> 0x80 <= Utf8(c)[i] <= 0xBF
  {
    var n := c as int;
    if n < 0x80 {
      assert Utf8(c) == [n];
    } else if n < 0x800 {
      SixBits(n);
      assert Utf8(c) == [0xC0 + n / 64, 0x80 + n % 64];
    } else if n < 0x1_0000 {
      SixBits(n);
      SixBits(n / 64);
      SplitTwice(n);
      assert Utf8(c) == [0xE0 + n / 4096, 0x80 + n / 64 % 64, 0x80 + n % 64];
    } else {
      SixBits(n);
      SixBits(n / 64);
      SixBits(n / 4096);
      SplitTwice(n);
      SplitTwice(n / 64);
      assert Utf8(c) == [0xF0 + n / 262144, 0x80 + n / 4096 % 64, 0x80 + n / 64 % 64, 0x80 + n % 64];
    }
  }

  lemma {:induction false} SixBits(n: nat)
    ensures n == n / 64 * 64 + n % 64 && 0 <= n % 64 < 64
  { }

  lemma {:induction false} SplitTwice(n: nat)
    ensures n / 4096 == n / 64 / 64 && n / 262144 == n / 4096 / 64
  { }

  function Utf8All(s: string): seq<int> { if s == "" then [] else Utf8All(s[..|s| - 1]) + Utf8(s[|s| - 1]) }

  /** len(s) counts the bytes of the encoding. */
  lemma {:induction false} ByteLenIsUtf8(s: string)
    ensures ByteLen(s) == |Utf8All(s)|
  {
    hide Utf8, CharBytes;
    if s != "" {
      ByteLenIsUtf8(s[..|s| - 1]);
      Utf8RoundTrip(s[|s| - 1]);
    }
  }

  function TrimLeftBlanks(s: string): string {
    if s != "" && (s[0] == ' ' || s[0] == '\t') then TrimLeftBlanks(s[1..]) else s
  }

  function LowerAscii(s: string): string {
    seq(|s|, i requires 0 <= i < |s| => if 'A' <= s[i] <= 'Z' then (s[i] as int + 32) as char else s[i])
  }

  /** filepath.Ext: from the last dot of the last path element. */
  function Ext(path: string): string {
    if path == "" || path[|path| - 1] == '/' then ""
    else if path[|path| - 1] == '.' then "."
    else
      var before := Ext(path[..|path| - 1]);
      if before == "" then "" else before + [path[|path| - 1]]
  }
}

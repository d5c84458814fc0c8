/**
  Escaping of file entry names in mount paths, and parsing of mount paths back.  Strings are sequences
  of code points; their length is counted in the platform's string units, because the buffers are.
 */
module PathEscape {
  import opened Common

  type CodePoint = c: int | 0 <= c < 0x1_0000_0000
  type Text = seq<CodePoint>

  datatype Platform = Posix | Windows {
    function Separator(): CodePoint {
      if Posix? then 0x2f else 0x5c
    }

    function EscapeCharacter(): CodePoint {
      if Posix? then 0x5c else 0x5e
    }

    /** UTF-8 units on POSIX, UTF-16 units on Windows. */
    function Units(c: CodePoint): (n: nat)
      ensures 1 <= n <= 6
      ensures c < 0x80 ==> n == 1
    {
      if Windows? then (if c < 0x1_0000 then 1 else 2)
      else if c < 0x80 then 1
      else if c < 0x800 then 2
      else if c < 0x1_0000 then 3
      else if c < 0x20_0000 then 4
      else if c < 0x400_0000 then 5
      else 6
    }

    /** The longest string whose escaped form is sure to fit in memory. */
    function MaximumLength(): nat {
      0x7fff_ffff_ffff_fffe / ((if Posix? then 1 else 2) * 10)
    }

    function MaximumSize(): nat {
      0x7fff_ffff_ffff_ffff / (if Posix? then 1 else 2)
    }
  }

  const FAT_SEPARATOR: CodePoint := 0x5c

  function Length(platform: Platform, text: Text): nat {
    if text == [] then 0 else Length(platform, text[..|text| - 1]) + platform.Units(text[|text| - 1])
  }

  // ----- which code points are escaped, and how

  /** Control characters, the separator, and on Windows the characters names may not hold. */
  predicate ShortEscaped(platform: Platform, c: CodePoint) {
    || 1 <= c <= 0x1f
    || c == platform.Separator()
    || (platform.Windows? && c in {0x3c, 0x3e, 0x3a, 0x22, 0x2f, 0x7c, 0x3f, 0x2a})
    || 0x7f <= c <= 0x9f
  }

  /** Surrogates, undefined and unprintable code points. */
  predicate LongEscaped(c: CodePoint) {
    || 0x2028 <= c <= 0x2029
    || 0xd800 <= c <= 0xdfff
    || c == 0xe000
    || c == 0xf8ff
    || 0xfdd0 <= c <= 0xfddf
    || 0xfffe <= c % 0x1_0000 <= 0xffff
    || c == 0xf_0000
    || c == 0xf_fffd
    || c == 0x10_0000
    || 0x10_fffd <= c
  }

  function HexDigit(d: nat): CodePoint
    requires d < 16
  {
    if d < 10 then 0x30 + d else 0x61 + d - 10
  }

  /** The n lowest hexadecimal digits. */
  function HexDigits(c: nat, n: nat): (digits: Text)
    ensures |digits| == n
  {
    if n == 0 then [] else HexDigits(c / 16, n - 1) + [HexDigit(c % 16)]
  }

  /** The printed form of one code point. */
  function EscapeOne(platform: Platform, c: CodePoint): Text {
    if ShortEscaped(platform, c) then [platform.EscapeCharacter(), 0x78] + HexDigits(c, 2)
    else if LongEscaped(c) then [platform.EscapeCharacter(), 0x55] + HexDigits(c, 8)
    else if c == platform.EscapeCharacter() then [c, c]
    else [c]
  }

  function Escape(platform: Platform, text: Text): Text {
    if text == [] then [] else Escape(platform, text[..|text| - 1]) + EscapeOne(platform, text[|text| - 1])
  }

  /** The text before the first NUL. */
  function UpToNul(text: Text): Text {
    if text == [] || text[0] == 0 then [] else [text[0]] + UpToNul(text[1..])
  }

  // ----- parsing

  /** The value of a hexadecimal digit; upper case counts on Windows only. */
  function DigitValue(platform: Platform, c: CodePoint): Option<nat> {
    if 0x30 <= c <= 0x39 then Some(c - 0x30)
    else if platform.Windows? && 0x41 <= c <= 0x46 then Some(c - 0x41 + 10)
    else if 0x61 <= c <= 0x66 then Some(c - 0x61 + 10)
    else None
  }

  /** Four bits shifted into a 32-bit value; the highest bits are lost. */
  function ShiftIn(value: nat, digit: nat): CodePoint {
    (value * 16 + digit) % 0x1_0000_0000
  }

  /** The 32-bit value of a string of digits. */
  function HexValue(platform: Platform, digits: Text): Option<CodePoint> {
    if digits == [] then Some(0)
    else
      match (HexValue(platform, digits[..|digits| - 1]), DigitValue(platform, digits[|digits| - 1]))
      case (Some(high), Some(low)) => Some(ShiftIn(high, low))
      case _ => None
  }

  /** The value of an escape sequence's digits: only those the printer escapes that way are accepted. */
  function ParseDigits(platform: Platform, path: Text, count: nat): Option<CodePoint>
    requires count == 2 || count == 8
  {
    if |path| < 2 + count then None
    else match HexValue(platform, path[2..2 + count])
      case Some(value) =>
        if (if count == 2 then ShortEscaped(platform, value) else LongEscaped(value)) then Some(value) else None
      case None => None
  }

  /** An escape sequence at the start of a path, and its length. */
  function ParseEscape(platform: Platform, path: Text): (r: Option<(CodePoint, nat)>)
    requires path != []
    ensures r.Some? ==> 2 <= r.value.1 <= |path|
  {
    if |path| < 2 then None
    else if path[1] == platform.EscapeCharacter() then Some((path[1], 2))
    else if path[1] == 0x78 || (platform.Windows? && path[1] == 0x58) then
      match ParseDigits(platform, path, 2) case Some(value) => Some((value, 4)) case None => None
    else if path[1] == 0x55 || (platform.Windows? && path[1] == 0x75) then
      match ParseDigits(platform, path, 8) case Some(value) => Some((value, 10)) case None => None
    else None
  }

  /** The code point written at the start of a path, and the length of its written form. */
  function ParseOne(platform: Platform, path: Text): (r: Option<(CodePoint, nat)>)
    requires path != []
    ensures r.Some? ==> 1 <= r.value.1 <= |path|
  {
    if path[0] == platform.Separator() then Some((FAT_SEPARATOR, 1))
    else if path[0] != platform.EscapeCharacter() then Some((path[0], 1))
    else ParseEscape(platform, path)
  }

  function Parse(platform: Platform, path: Text): Option<Text>
    decreases |path|
  {
    if path == [] then Some([])
    else
      match ParseOne(platform, path)
      case None => None
      case Some((c, n)) =>
        match Parse(platform, path[n..])
        case None => None
        case Some(rest) => Some([c] + rest)
  }

  // ----- round trip

  predicate NulFree(text: Text) {
    forall i :: 0 <= i < |text| ==> text[i] != 0
  }

  /** Whether n hexadecimal digits hold c. */
  predicate FitsDigits(c: nat, n: nat) {
    if n == 0 then c == 0 else FitsDigits(c / 16, n - 1)
  }

  lemma {:induction false} HexRoundTrip(platform: Platform, c: CodePoint, n: nat)
    requires FitsDigits(c, n)
    ensures HexValue(platform, HexDigits(c, n)) == Some(c)
  {
    if n != 0 {
      HexRoundTrip(platform, c / 16, n - 1);
      LastDigit(platform, HexDigits(c / 16, n - 1), c / 16, c % 16);
    }
  }

  lemma DigitRoundTrip(platform: Platform, d: nat)
    requires d < 16
    ensures DigitValue(platform, HexDigit(d)) == Some(d)
  {
  }

  lemma ShiftInExact(high: nat, low: nat)
    requires high * 16 + low < 0x1_0000_0000
    ensures ShiftIn(high, low) == high * 16 + low
  {
  }

  lemma LastDigit(platform: Platform, digits: Text, high: nat, low: nat)
    requires low < 16 && high * 16 + low < 0x1_0000_0000
    requires HexValue(platform, digits) == Some(high)
    ensures HexValue(platform, digits + [HexDigit(low)]) == Some(high * 16 + low)
  {
    DigitRoundTrip(platform, low);
    ShiftInExact(high, low);
    var longer, last := digits + [HexDigit(low)], HexDigit(low);
    assert longer[..|longer| - 1] == digits && longer[|longer| - 1] == last;
  }

  lemma FitsEightDigits(c: CodePoint)
    ensures c < 0x100 ==> FitsDigits(c, 2)
    ensures FitsDigits(c, 8)
  {
    assert FitsDigits(c, 8) == FitsDigits(c / 16, 7) == FitsDigits(c / 16 / 16, 6);
    var d := c / 16 / 16;
    assert FitsDigits(d, 6) == FitsDigits(d / 16, 5) == FitsDigits(d / 16 / 16, 4);
    var e := d / 16 / 16;
    assert FitsDigits(e, 4) == FitsDigits(e / 16, 3) == FitsDigits(e / 16 / 16, 2);
  }

  /** An escape sequence of n digits reads back as the value it was printed from. */
  lemma ParsePrintedDigits(platform: Platform, marker: CodePoint, c: CodePoint, n: nat, rest: Text)
    requires n == 2 || n == 8
    requires FitsDigits(c, n)
    requires if n == 2 then ShortEscaped(platform, c) else LongEscaped(c)
    ensures ParseDigits(platform, [platform.EscapeCharacter(), marker] + HexDigits(c, n) + rest, n) == Some(c)
  {
    HexRoundTrip(platform, c, n);
    var written := [platform.EscapeCharacter(), marker] + HexDigits(c, n) + rest;
    assert written[2..2 + n] == HexDigits(c, n);
  }

  lemma ParseEscapedOne(platform: Platform, c: CodePoint, rest: Text)
    requires c != 0
    ensures ParseOne(platform, EscapeOne(platform, c) + rest) == Some((c, |EscapeOne(platform, c)|))
  {
    FitsEightDigits(c);
    if ShortEscaped(platform, c) {
      ParsePrintedDigits(platform, 0x78, c, 2, rest);
    } else if LongEscaped(c) {
      ParsePrintedDigits(platform, 0x55, c, 8, rest);
    }
  }

  lemma ParsePrefixed(platform: Platform, c: CodePoint, written: Text, rest: Text)
    requires written != [] && ParseOne(platform, written + rest) == Some((c, |written|))
    requires Parse(platform, rest).Some?
    ensures Parse(platform, written + rest) == Some([c] + Parse(platform, rest).value)
  {
    assert (written + rest)[|written|..] == rest;
  }

  /** Parsing undoes escaping, whatever follows. */
  lemma {:induction false} ParseEscaped(platform: Platform, name: Text, rest: Text)
    requires NulFree(name)
    requires Parse(platform, rest).Some?
    ensures Parse(platform, Escape(platform, name) + rest) == Some(name + Parse(platform, rest).value)
    decreases |name|
  {
    var parsed := Parse(platform, rest).value;
    if name == [] {
      assert Escape(platform, name) + rest == rest;
      assert name + parsed == parsed;
    } else {
      var front, c := name[..|name| - 1], name[|name| - 1];
      var one := EscapeOne(platform, c);
      assert one != [];
      ParseEscapedOne(platform, c, rest);
      ParsePrefixed(platform, c, one, rest);
      ParseEscaped(platform, front, one + rest);
      Reassociate(Escape(platform, front), one, rest);
      Reassociate(front, [c], parsed);
      assert name == front + [c];
    }
  }

  /** The mount path of nested file entries. */
  function MountPath(platform: Platform, names: seq<Text>): Text {
    if names == [] then [] else [platform.Separator()] + Escape(platform, names[0]) + MountPath(platform, names[1..])
  }

  function FileEntryPath(names: seq<Text>): Text {
    if names == [] then [] else [FAT_SEPARATOR] + names[0] + FileEntryPath(names[1..])
  }

  /** The path of printed names, each behind a separator, parses to the path of the names themselves. */
  lemma {:induction false} MountPathRoundTrip(platform: Platform, names: seq<Text>)
    requires forall i :: 0 <= i < |names| ==> NulFree(names[i])
    ensures Parse(platform, MountPath(platform, names)) == Some(FileEntryPath(names))
  {
    if names != [] {
      MountPathRoundTrip(platform, names[1..]);
      var rest := MountPath(platform, names[1..]);
      ParseEscaped(platform, names[0], rest);
      var behind := Escape(platform, names[0]) + rest;
      ParsePrefixed(platform, FAT_SEPARATOR, [platform.Separator()], behind);
      Reassociate([platform.Separator()], Escape(platform, names[0]), rest);
      Reassociate([FAT_SEPARATOR], names[0], FileEntryPath(names[1..]));
    }
  }

  /** Different names are printed differently. */
  lemma EscapeInjective(platform: Platform, a: Text, b: Text)
    requires NulFree(a) && NulFree(b)
    requires Escape(platform, a) == Escape(platform, b)
    ensures a == b
  {
    ParseEscaped(platform, a, []);
    ParseEscaped(platform, b, []);
    assert a + [] == a && b + [] == b;
  }

  predicate Plain(platform: Platform, c: CodePoint) {
    c != platform.Separator() && 0x1f < c && !(0x7f <= c <= 0x9f)
  }

  /** A printed name is one path component, free of NUL and control characters. */
  lemma {:induction false} EscapedIsOneComponent(platform: Platform, name: Text)
    requires NulFree(name)
    ensures forall i :: 0 <= i < |Escape(platform, name)| ==> Plain(platform, Escape(platform, name)[i])
  {
    if name != [] {
      EscapedIsOneComponent(platform, name[..|name| - 1]);
      var c := name[|name| - 1];
      DigitsArePlain(platform, c, 2);
      DigitsArePlain(platform, c, 8);
    }
  }

  lemma {:induction false} DigitsArePlain(platform: Platform, c: nat, n: nat)
    ensures forall i :: 0 <= i < n ==> Plain(platform, HexDigits(c, n)[i])
  {
    if n != 0 {
      DigitsArePlain(platform, c / 16, n - 1);
    }
  }

  // ----- the copying loops

  method CopyHexadecimalToInteger32Bit(platform: Platform, text: Text) returns (value: Option<CodePoint>)
    requires text != []
    ensures value == HexValue(platform, text)
  {
    var safeValue: CodePoint := 0;
    for index := 0 to |text|
      invariant HexValue(platform, text[..index]) == Some(safeValue)
    {
      var digit := DigitValue(platform, text[index]);
      assert text[..index + 1][..index] == text[..index];
      if digit.None? {
        HexPrefix(platform, text, index + 1);
        return None;
      }
      safeValue := ShiftIn(safeValue, digit.value);
    }
    assert text[..|text|] == text;
    value := Some(safeValue);
  }

  lemma {:induction false} HexPrefix(platform: Platform, text: Text, n: nat)
    requires n <= |text|
    requires HexValue(platform, text[..n]).None?
    ensures HexValue(platform, text).None?
  {
    if n == |text| {
      assert text[..n] == text;
    } else {
      assert text[..|text| - 1][..n] == text[..n];
      HexPrefix(platform, text[..|text| - 1], n);
    }
  }

  /** What a bounded print leaves of a text in the given room: one unit goes to the terminator. */
  function Printed(text: Text, room: nat): Text {
    if |text| < room then text else if room == 0 then [] else text[..room - 1]
  }

  lemma {:induction false} LengthConcat(platform: Platform, a: Text, b: Text)
    ensures Length(platform, a + b) == Length(platform, a) + Length(platform, b)
  {
    if b == [] {
      assert a + b == a;
    } else {
      assert (a + b)[..|a + b| - 1] == a + b[..|b| - 1];
      LengthConcat(platform, a, b[..|b| - 1]);
    }
  }

  lemma {:induction false} UpToNulIs(text: Text, n: nat)
    requires n <= |text| && NulFree(text[..n])
    requires n < |text| ==> text[n] == 0
    ensures UpToNul(text) == text[..n]
  {
    if 0 < n {
      assert text[0] == text[..n][0];
      assert text[1..][..n - 1] == text[..n][1..];
      UpToNulIs(text[1..], n - 1);
      assert text[..n] == [text[0]] + text[1..][..n - 1];
    }
  }

  /** Length of the printed form of one code point: ten units at most. */
  lemma EscapeOneLength(platform: Platform, c: CodePoint)
    ensures Length(platform, EscapeOne(platform, c)) <= 10
    ensures ShortEscaped(platform, c) || LongEscaped(c)
            ==> |EscapeOne(platform, c)| == Length(platform, EscapeOne(platform, c))
  {
    DigitsLength(platform, c, 2);
    DigitsLength(platform, c, 8);
    LengthConcat(platform, [platform.EscapeCharacter(), 0x78], HexDigits(c, 2));
    LengthConcat(platform, [platform.EscapeCharacter(), 0x55], HexDigits(c, 8));
  }

  lemma {:induction false} DigitsLength(platform: Platform, c: nat, n: nat)
    ensures Length(platform, HexDigits(c, n)) == n
  {
    if n != 0 {
      var digits := HexDigits(c, n);
      assert digits[..n - 1] == HexDigits(c / 16, n - 1);
      DigitsLength(platform, c / 16, n - 1);
    }
  }

  predicate CanPrint(platform: Platform, fileEntryPath: Text) {
    0 < Length(platform, fileEntryPath) <= platform.MaximumLength()
  }

  /** The printer has copied the code points before the index into `path`, ending at `pathIndex`. */
  ghost predicate Copied(platform: Platform, source: Text, index: nat, path: Text, pathIndex: nat) {
    && index <= |source|
    && NulFree(source[..index])
    && path == Escape(platform, source[..index])
    && pathIndex == Length(platform, path) <= 10 * Length(platform, source[..index])
  }

  lemma CopiedOneMore(platform: Platform, source: Text, index: nat, path: Text, pathIndex: nat)
    requires index < |source| && source[index] != 0
    requires Copied(platform, source, index, path, pathIndex)
    ensures var one := EscapeOne(platform, source[index]);
            Copied(platform, source, index + 1, path + one, pathIndex + Length(platform, one))
  {
    assert source[..index + 1][..index] == source[..index];
    EscapeOneLength(platform, source[index]);
    LengthConcat(platform, path, EscapeOne(platform, source[index]));
  }

  /** Room for ten more units per unit still to be read, and one for the terminator. */
  lemma CopiedRoom(platform: Platform, source: Text, index: nat, path: Text, pathIndex: nat)
    requires Copied(platform, source, index, path, pathIndex)
    ensures pathIndex <= 10 * Length(platform, source)
    ensures index < |source| ==> pathIndex + 10 <= 10 * Length(platform, source)
  {
    assert source == source[..index] + source[index..];
    LengthConcat(platform, source[..index], source[index..]);
    if index < |source| {
      assert source[index..] == [source[index]] + source[index + 1..];
      LengthConcat(platform, [source[index]], source[index + 1..]);
    }
  }

  /** Appends the escaped form of one code point, checking the bounds the way the printer does. */
  method PrintOne(platform: Platform, c: CodePoint, path: Text, pathIndex: nat, size: nat)
    returns (ok: bool, newPath: Text, newIndex: nat)
    requires pathIndex + 10 < size
    ensures ok
    ensures newPath == path + EscapeOne(platform, c)
    ensures newIndex == pathIndex + Length(platform, EscapeOne(platform, c))
  {
    ok, newPath, newIndex := true, path, pathIndex;
    EscapeOneLength(platform, c);
    if ShortEscaped(platform, c) || LongEscaped(c) {
      var one := EscapeOne(platform, c);
      newPath := path + Printed(one, size - pathIndex);
      newIndex := pathIndex + |one|;
    } else if c == platform.EscapeCharacter() {
      ok := pathIndex + 2 <= size;
      newPath := path + [c, c];
      newIndex := pathIndex + 2;
      assert Length(platform, [c, c]) == Length(platform, [c, c][..1]) + 1;
    } else {
      ok := pathIndex + platform.Units(c) <= size;
      newPath := path + [c];
      newIndex := pathIndex + platform.Units(c);
    }
  }

  /** The printer.  None of its bounds checks fires and no print is cut short. */
  method CopyFromFileEntryPath(platform: Platform, fileEntryPath: Text) returns (ok: bool, path: Text, size: nat)
    ensures ok == CanPrint(platform, fileEntryPath)
    ensures ok ==> path == Escape(platform, UpToNul(fileEntryPath))
    ensures ok ==> Length(platform, path) < size == Length(platform, fileEntryPath) * 10 + 1
  {
    var length := Length(platform, fileEntryPath);
    ok, path, size := length != 0 && length <= platform.MaximumLength(), [], 0;
    if !ok {
      return;
    }
    size := length * 10 + 1;
    var index: nat, pathIndex: nat := 0, 0;
    while index < |fileEntryPath| && fileEntryPath[index] != 0
      invariant Copied(platform, fileEntryPath, index, path, pathIndex)
    {
      CopiedRoom(platform, fileEntryPath, index, path, pathIndex);
      CopiedOneMore(platform, fileEntryPath, index, path, pathIndex);
      ok, path, pathIndex := PrintOne(platform, fileEntryPath[index], path, pathIndex, size);
      if !ok {
        return;
      }
      index := index + 1;
    }
    UpToNulIs(fileEntryPath, index);
    CopiedRoom(platform, fileEntryPath, index, path, pathIndex);
    ok := pathIndex < size;
  }

  // ----- the parser's loop

  /** Every parsed code point takes no more units than its written form. */
  lemma ParseOneShrinks(platform: Platform, path: Text)
    requires path != [] && ParseOne(platform, path).Some?
    ensures var (c, n) := ParseOne(platform, path).value;
            platform.Units(c) <= Length(platform, path[..n])
  {
    var (c, n) := ParseOne(platform, path).value;
    LengthAtLeast(platform, path[..n]);
    if n == 1 {
      assert Length(platform, path[..1]) == Length(platform, path[..1][..0]) + platform.Units(path[0]);
    }
  }

  lemma {:induction false} LengthAtLeast(platform: Platform, text: Text)
    ensures |text| <= Length(platform, text)
  {
    if text != [] {
      LengthAtLeast(platform, text[..|text| - 1]);
    }
  }

  predicate CanParse(platform: Platform, path: Text) {
    && path != []
    && Length(platform, path) + 1 <= platform.MaximumSize()
    && path[0] == platform.Separator()
    && Parse(platform, path).Some?
  }

  /** The text parsed so far, followed by what the rest parses to. */
  function ParseAfter(platform: Platform, output: Text, rest: Text): Option<Text> {
    match Parse(platform, rest)
    case None => None
    case Some(behind) => Some(output + behind)
  }

  /** What is parsed before the index, with what is still to be parsed, is the whole. */
  ghost predicate ParsedTo(platform: Platform, path: Text, index: nat, output: Text) {
    && index <= |path|
    && Length(platform, output) <= Length(platform, path[..index])
    && Parse(platform, path) == ParseAfter(platform, output, path[index..])
  }

  lemma OutputShorter(platform: Platform, output: Text, c: CodePoint, front: Text, written: Text)
    requires Length(platform, output) <= Length(platform, front)
    requires platform.Units(c) <= Length(platform, written)
    ensures Length(platform, output + [c]) <= Length(platform, front + written)
  {
    LengthConcat(platform, front, written);
    LengthConcat(platform, output, [c]);
  }

  lemma ParsedMore(platform: Platform, rest: Text, n: nat, c: CodePoint, output: Text)
    requires rest != [] && ParseOne(platform, rest) == Some((c, n))
    ensures ParseAfter(platform, output, rest) == ParseAfter(platform, output + [c], rest[n..])
  {
    if Parse(platform, rest[n..]).Some? {
      Reassociate(output, [c], Parse(platform, rest[n..]).value);
    }
  }

  lemma ParsedOneMore(platform: Platform, path: Text, index: nat, output: Text)
    requires index < |path| && ParsedTo(platform, path, index, output)
    ensures match ParseOne(platform, path[index..])
            case None => Parse(platform, path).None?
            case Some((c, n)) => ParsedTo(platform, path, index + n, output + [c])
  {
    var rest := path[index..];
    if ParseOne(platform, rest).Some? {
      var (c, n) := ParseOne(platform, rest).value;
      ParseOneShrinks(platform, rest);
      OutputShorter(platform, output, c, path[..index], rest[..n]);
      assert path[..index + n] == path[..index] + rest[..n];
      assert rest[n..] == path[index + n..];
      ParsedMore(platform, rest, n, c, output);
    }
  }

  /** The parser.  It fails on malformed paths only: its bounds checks on the output never fire. */
  method CopyToFileEntryPath(platform: Platform, path: Text) returns (ok: bool, fileEntryPath: Text, size: nat)
    ensures ok == CanParse(platform, path)
    ensures ok ==> Parse(platform, path) == Some(fileEntryPath)
    ensures ok ==> Length(platform, fileEntryPath) < size == Length(platform, path) + 1
  {
    var length := Length(platform, path);
    ok, fileEntryPath, size := false, [], length + 1;
    if path == [] || path[0] != platform.Separator() || platform.MaximumSize() < size {
      return;
    }
    assert path[0..] == path;
    assert Parse(platform, path).Some? ==> [] + Parse(platform, path).value == Parse(platform, path).value;
    var index, fileEntryPathIndex := 0, 0;
    while index < |path|
      invariant ParsedTo(platform, path, index, fileEntryPath)
      invariant fileEntryPathIndex == Length(platform, fileEntryPath)
    {
      var count, c;
      ParsedOneMore(platform, path, index, fileEntryPath);
      ok, c, count := CopyOne(platform, path[index..]);
      if !ok {
        return;
      }
      index := index + count;
      LengthConcat(platform, fileEntryPath, [c]);
      CopiedFits(platform, path, index, fileEntryPath + [c]);
      if size < fileEntryPathIndex + platform.Units(c) {
        ok := false;
        return;
      }
      fileEntryPath := fileEntryPath + [c];
      fileEntryPathIndex := fileEntryPathIndex + platform.Units(c);
    }
    CopiedFits(platform, path, index, fileEntryPath);
    assert fileEntryPath + [] == fileEntryPath;
    ok := fileEntryPathIndex < size;
  }

  lemma CopiedFits(platform: Platform, path: Text, index: nat, output: Text)
    requires ParsedTo(platform, path, index, output)
    ensures Length(platform, output) <= Length(platform, path)
  {
    assert path == path[..index] + path[index..];
    LengthConcat(platform, path[..index], path[index..]);
  }

  /** Reads one code point or escape sequence at the start of a path. */
  method CopyOne(platform: Platform, path: Text) returns (ok: bool, c: CodePoint, count: nat)
    requires path != []
    ensures ok == ParseOne(platform, path).Some?
    ensures ok ==> ParseOne(platform, path) == Some((c, count))
  {
    ok, c, count := true, path[0], 1;
    if c == platform.Separator() {
      c := FAT_SEPARATOR;
    } else if c == platform.EscapeCharacter() {
      if |path| < 2 {
        return false, c, count;
      }
      var value := None;
      if path[1] == platform.EscapeCharacter() {
        return true, path[1], 2;
      } else if path[1] == 0x78 || (platform.Windows? && path[1] == 0x58) {
        count := 4;
        if count <= |path| {
          value := CopyHexadecimalToInteger32Bit(platform, path[2..4]);
        }
        ok := value.Some? && ShortEscaped(platform, value.value);
      } else if path[1] == 0x55 || (platform.Windows? && path[1] == 0x75) {
        count := 10;
        if count <= |path| {
          value := CopyHexadecimalToInteger32Bit(platform, path[2..10]);
        }
        ok := value.Some? && LongEscaped(value.value);
      } else {
        ok := false;
      }
      c := if ok then value.value else c;
    }
  }
}

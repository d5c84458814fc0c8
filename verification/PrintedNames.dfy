/** Which names the mount tool prints as they are, how it prints the others, and which escapes it reads. */
module PrintedNames {
  import opened Common
  import opened PathEscape

  // ----- the classes of code points

  /** Control characters, the separator of the platform, and on Windows the characters < > : " / | ? *. */
  predicate TwoDigits(platform: Platform, c: CodePoint) {
    || 0x01 <= c <= 0x1f || 0x7f <= c <= 0x9f
    || (platform == Posix && c == '/' as int)
    || (platform == Windows
        && (c == '\\' as int || c == '<' as int || c == '>' as int || c == ':' as int || c == '"' as int
            || c == '/' as int || c == '|' as int || c == '?' as int || c == '*' as int))
  }

  /** Line and paragraph separators, surrogates, the ends of the private areas, undefined code points, and all from
      U+10FFFD on. */
  predicate EightDigits(c: CodePoint) {
    || c == 0x2028 || c == 0x2029 || 0xd800 <= c <= 0xe000 || c == 0xf8ff || 0xfdd0 <= c <= 0xfddf
    || c % 0x1_0000 == 0xfffe || c % 0x1_0000 == 0xffff
    || c == 0xf_0000 || c == 0xf_fffd || c == 0x10_0000 || 0x10_fffd <= c
  }

  predicate IsEscape(platform: Platform, c: CodePoint) {
    if platform == Windows then c == '^' as int else c == '\\' as int
  }

  /** The code points that are printed as they are. */
  predicate AsIs(platform: Platform, c: CodePoint) {
    !TwoDigits(platform, c) && !EightDigits(c) && !IsEscape(platform, c)
  }

  const DIGITS: string := "0123456789abcdef"

  function Digit(c: nat, at: nat): CodePoint
    requires at < 8
  {
    DIGITS[c / Sixteenth(at) % 16] as int
  }

  /** 16 to the power of a small number. */
  function Sixteenth(at: nat): (power: nat)
    requires at < 8
    ensures 0 < power
  {
    [0x1, 0x10, 0x100, 0x1000, 0x1_0000, 0x10_0000, 0x100_0000, 0x1000_0000][at]
  }

  lemma DigitOf(d: nat)
    requires d < 16
    ensures HexDigit(d) == DIGITS[d] as int
  {
  }

  lemma TwoHexDigits(c: nat)
    ensures HexDigits(c, 2) == [Digit(c, 1), Digit(c, 0)]
  {
    DigitOf(c % 16);
    DigitOf(c / 16 % 16);
    assert HexDigits(c, 2) == HexDigits(c / 16, 1) + [HexDigit(c % 16)];
    assert HexDigits(c / 16, 1) == [] + [HexDigit(c / 16 % 16)];
  }

  lemma DigitAbove(c: nat, at: nat)
    requires at < 6
    ensures Digit(c / 0x100, at) == Digit(c, at + 2)
  {
    assert c / 0x100 / 0x1 == c / 0x100;
    assert c / 0x100 / 0x10 == c / 0x1000;
    assert c / 0x100 / 0x100 == c / 0x1_0000;
    assert c / 0x100 / 0x1000 == c / 0x10_0000;
    assert c / 0x100 / 0x1_0000 == c / 0x100_0000;
    assert c / 0x100 / 0x10_0000 == c / 0x1000_0000;
  }

  lemma MoreHexDigits(c: nat, n: nat)
    ensures HexDigits(c, n + 2) == HexDigits(c / 0x100, n) + [Digit(c, 1), Digit(c, 0)]
  {
    DigitOf(c % 16);
    DigitOf(c / 16 % 16);
    assert c / 16 / 16 == c / 0x100;
    assert HexDigits(c, n + 2) == HexDigits(c / 16, n + 1) + [HexDigit(c % 16)];
    assert HexDigits(c / 16, n + 1) == HexDigits(c / 16 / 16, n) + [HexDigit(c / 16 % 16)];
  }

  lemma EightHexDigits(c: nat)
    ensures HexDigits(c, 8) == [Digit(c, 7), Digit(c, 6), Digit(c, 5), Digit(c, 4),
                                Digit(c, 3), Digit(c, 2), Digit(c, 1), Digit(c, 0)]
  {
    MoreHexDigits(c, 6);
    MoreHexDigits(c / 0x100, 4);
    MoreHexDigits(c / 0x100 / 0x100, 2);
    TwoHexDigits(c / 0x100 / 0x100 / 0x100);
    DigitsAbove(c);
  }

  lemma DigitsAbove(c: nat)
    ensures Digit(c / 0x100, 0) == Digit(c, 2) && Digit(c / 0x100, 1) == Digit(c, 3)
    ensures Digit(c / 0x100 / 0x100, 0) == Digit(c, 4) && Digit(c / 0x100 / 0x100, 1) == Digit(c, 5)
    ensures Digit(c / 0x100 / 0x100 / 0x100, 0) == Digit(c, 6) && Digit(c / 0x100 / 0x100 / 0x100, 1) == Digit(c, 7)
  {
    forall d: nat, at: nat | at < 6
      ensures Digit(d / 0x100, at) == Digit(d, at + 2)
    {
      DigitAbove(d, at);
    }
  }

  // ----- printing

  /** What is printed for one code point. */
  lemma OneIsPrinted(platform: Platform, c: CodePoint)
    ensures var escape := if platform == Windows then '^' as int else '\\' as int;
            EscapeOne(platform, c) ==
            if TwoDigits(platform, c) then [escape, 'x' as int, Digit(c, 1), Digit(c, 0)]
            else if EightDigits(c) then
              [escape, 'U' as int, Digit(c, 7), Digit(c, 6), Digit(c, 5), Digit(c, 4),
               Digit(c, 3), Digit(c, 2), Digit(c, 1), Digit(c, 0)]
            else if c == escape then [escape, escape]
            else [c]
  {
    TwoHexDigits(c);
    EightHexDigits(c);
  }

  lemma {:induction false} PrintedLength(platform: Platform, name: Text)
    ensures |name| <= |Escape(platform, name)|
    ensures |name| == |Escape(platform, name)| ==> forall i :: 0 <= i < |name| ==> AsIs(platform, name[i])
  {
    if name != [] {
      PrintedLength(platform, name[..|name| - 1]);
      OneIsPrinted(platform, name[|name| - 1]);
    }
  }

  lemma {:induction false} PlainIsPrinted(platform: Platform, name: Text)
    requires forall i :: 0 <= i < |name| ==> AsIs(platform, name[i])
    ensures Escape(platform, name) == name
  {
    if name != [] {
      PlainIsPrinted(platform, name[..|name| - 1]);
      OneIsPrinted(platform, name[|name| - 1]);
      assert name == name[..|name| - 1] + [name[|name| - 1]];
    }
  }

  /** A name is printed unchanged exactly when none of its code points is of one of the classes. */
  lemma PrintedUnchangedIff(platform: Platform, name: Text)
    ensures Escape(platform, name) == name <==> forall i :: 0 <= i < |name| ==> AsIs(platform, name[i])
  {
    PrintedLength(platform, name);
    if forall i :: 0 <= i < |name| ==> AsIs(platform, name[i]) {
      PlainIsPrinted(platform, name);
    }
  }

  /** A name is printed code point by code point. */
  lemma {:induction false} PrintedInParts(platform: Platform, a: Text, b: Text)
    ensures Escape(platform, a + b) == Escape(platform, a) + Escape(platform, b)
    ensures |b| == 1 ==> Escape(platform, b) == EscapeOne(platform, b[0])
    decreases |b|
  {
    if b == [] {
      assert a + b == a;
    } else {
      var front, last := b[..|b| - 1], b[|b| - 1];
      assert (a + b)[..|a + b| - 1] == a + front;
      PrintedInParts(platform, a, front);
      Reassociate(Escape(platform, a), Escape(platform, front), EscapeOne(platform, last));
    }
  }

  /** The printer takes names of 1 to about 2^63 / 10 units of one byte, or 2^63 / 20 of two; the parser takes
      paths up to about 2^63 or 2^62 units.  The units of a code point are those of UTF-8 and UTF-16. */
  lemma Limits(text: Text)
    ensures CanPrint(Posix, text) <==> 1 <= Length(Posix, text) <= 922_337_203_685_477_580
    ensures CanPrint(Windows, text) <==> 1 <= Length(Windows, text) <= 461_168_601_842_738_790
    ensures CanParse(Posix, text) ==> Length(Posix, text) <= 9_223_372_036_854_775_806
    ensures CanParse(Windows, text) ==> Length(Windows, text) <= 4_611_686_018_427_387_902
    ensures Length(Posix, text) == 9_223_372_036_854_775_806 && text != [] && text[0] == 0x2f
            ==> (CanParse(Posix, text) <==> Parse(Posix, text).Some?)
    ensures Length(Windows, text) == 4_611_686_018_427_387_902 && text != [] && text[0] == 0x5c
            ==> (CanParse(Windows, text) <==> Parse(Windows, text).Some?)
  {
  }

  /** In UTF-8, n units hold the code points of 7 bits, or of 5 n + 1 bits from two units on; in UTF-16 one unit holds
      16 bits. */
  lemma UnitsOfCodePoint(c: CodePoint)
    ensures Posix.Units(c) <= 1 <==> c < 0x80
    ensures Posix.Units(c) <= 2 <==> c < 0x800
    ensures Posix.Units(c) <= 3 <==> c < 0x1_0000
    ensures Posix.Units(c) <= 4 <==> c < 0x20_0000
    ensures Posix.Units(c) <= 5 <==> c < 0x400_0000
    ensures Posix.Units(c) <= 6
    ensures Windows.Units(c) == if c < 0x1_0000 then 1 else 2
  {
  }

  // ----- reading escapes

  predicate IsDigit(platform: Platform, c: CodePoint) {
    || '0' as int <= c <= '9' as int || 'a' as int <= c <= 'f' as int
    || (platform == Windows && 'A' as int <= c <= 'F' as int)
  }

  function ValueOf(c: CodePoint): (value: int) {
    if c <= '9' as int then c - '0' as int else if c <= 'F' as int then c - 'A' as int + 10 else c - 'a' as int + 10
  }

  lemma DigitRead(platform: Platform, c: CodePoint)
    ensures DigitValue(platform, c) == if IsDigit(platform, c) then Some(ValueOf(c)) else None
    ensures IsDigit(platform, c) ==> 0 <= ValueOf(c) < 16
  {
  }

  lemma TwoDigitsRead(platform: Platform, high: CodePoint, low: CodePoint)
    ensures HexValue(platform, [high, low]) ==
            if IsDigit(platform, high) && IsDigit(platform, low) then Some(16 * ValueOf(high) + ValueOf(low)) else None
  {
    DigitRead(platform, high);
    DigitRead(platform, low);
    assert [high, low][..1] == [high] && [high][..0] == [];
    assert HexValue(platform, [high]) == if IsDigit(platform, high) then Some(ValueOf(high)) else None;
  }

  /** At the start of a path: the separator stands for the FAT separator, an escape character is read with what
      follows, and any other code point stands for itself. */
  lemma OneIsRead(platform: Platform, c: CodePoint, rest: Text)
    ensures var separator := if platform == Windows then '\\' as int else '/' as int;
            && (c == separator ==> ParseOne(platform, [c] + rest) == Some(('\\' as int, 1)))
            && (c != separator && !IsEscape(platform, c) ==> ParseOne(platform, [c] + rest) == Some((c, 1)))
            && (c != separator && IsEscape(platform, c) && rest == [] ==> ParseOne(platform, [c] + rest) == None)
            && (c != separator && IsEscape(platform, c) && rest != [] && rest[0] == c ==>
                  ParseOne(platform, [c] + rest) == Some((c, 2)))
  {
  }

  /** The escape character and x, on Windows also X, take two digits, of the code points that are printed so. */
  lemma TwoDigitEscape(platform: Platform, marker: CodePoint, high: CodePoint, low: CodePoint, rest: Text)
    requires marker == 'x' as int || (platform == Windows && marker == 'X' as int)
    ensures var escape := if platform == Windows then '^' as int else '\\' as int;
            var value := 16 * ValueOf(high) + ValueOf(low);
            ParseOne(platform, [escape, marker, high, low] + rest) ==
            if IsDigit(platform, high) && IsDigit(platform, low) && 0 <= value && TwoDigits(platform, value)
            then Some((value, 4)) else None
  {
    var escape := if platform == Windows then '^' as int else '\\' as int;
    TwoDigitsRead(platform, high, low);
    DigitRead(platform, high);
    DigitRead(platform, low);
    var path := [escape, marker, high, low] + rest;
    assert path[2..4] == [high, low];
  }

  /** The value of digits, four bits each, in 32 bits. */
  function ValueOfDigits(digits: Text): int {
    if digits == [] then 0
    else (16 * ValueOfDigits(digits[..|digits| - 1]) + ValueOf(digits[|digits| - 1])) % 0x1_0000_0000
  }

  predicate AllDigits(platform: Platform, digits: Text) {
    forall i :: 0 <= i < |digits| ==> IsDigit(platform, digits[i])
  }

  lemma LastIsDigit(platform: Platform, digits: Text)
    requires digits != []
    ensures AllDigits(platform, digits) <==>
              AllDigits(platform, digits[..|digits| - 1]) && IsDigit(platform, digits[|digits| - 1])
  {
  }

  lemma {:induction false} DigitsRead(platform: Platform, digits: Text)
    ensures HexValue(platform, digits) ==
            if AllDigits(platform, digits) then Some(ValueOfDigits(digits)) else None
  {
    if digits != [] {
      DigitsRead(platform, digits[..|digits| - 1]);
      DigitRead(platform, digits[|digits| - 1]);
      LastIsDigit(platform, digits);
    }
  }

  /** The escape character and U, on Windows also u, take eight digits, of the code points that are printed so. */
  lemma EightDigitEscape(platform: Platform, marker: CodePoint, digits: Text, rest: Text)
    requires marker == 'U' as int || (platform == Windows && marker == 'u' as int)
    requires |digits| == 8
    ensures var escape := if platform == Windows then '^' as int else '\\' as int;
            var value := ValueOfDigits(digits);
            ParseOne(platform, [escape, marker] + digits + rest) ==
            if AllDigits(platform, digits) && 0 <= value && EightDigits(value)
            then Some((value, 10)) else None
  {
    var escape := if platform == Windows then '^' as int else '\\' as int;
    DigitsRead(platform, digits);
    var path := [escape, marker] + digits + rest;
    assert path[0] == escape && path[1] == marker && path[2..10] == digits;
  }

  /** Any other code point behind the escape character is an error, and so is a path that ends in an escape. */
  lemma OtherEscapes(platform: Platform, marker: CodePoint, rest: Text)
    requires !IsEscape(platform, marker) && marker != 'x' as int && marker != 'U' as int
    requires platform == Windows ==> marker != 'X' as int && marker != 'u' as int
    ensures var escape := if platform == Windows then '^' as int else '\\' as int;
            ParseOne(platform, [escape, marker] + rest) == None
  {
  }

  lemma EscapeCutShort(platform: Platform, marker: CodePoint, digits: Text)
    requires (marker == 'x' as int && |digits| < 2) || (marker == 'U' as int && |digits| < 8)
    ensures var escape := if platform == Windows then '^' as int else '\\' as int;
            ParseOne(platform, [escape, marker] + digits) == None
  {
  }
}

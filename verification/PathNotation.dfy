/** What the texts of a derivation path mean: the default root, the range of a component, signs, number
    bases and digit separators. */
module PathNotation {
  import opened Common
  import opened DerivationPath

  // ---- Relative paths ----

  lemma {:induction false} SplitJoin(s: string, t: string)
    ensures Split(s + "/" + t) == Split(s) + Split(t)
    decreases |t|
  {
    if t == [] {
      assert s + "/" + t == s + "/";
      SplitOneMore(s, '/');
    } else {
      var u, c := t[..|t| - 1], t[|t| - 1];
      SplitJoin(s, u);
      InitLast(t);
      ConcatLast(s + "/", u, c);
      SplitOneMore(s + "/" + u, c);
      SplitOneMore(u, c);
      PushAfter(Split(s), Split(u), c);
    }
  }

  lemma PushAfter(before: seq<string>, parts: seq<string>, c: char)
    requires |parts| > 0
    ensures Push(before + parts, c) == before + Push(parts, c)
  {
    var all := before + parts;
    assert all[..|all| - 1] == before + parts[..|parts| - 1];
  }

  /** What comes of values parsed so far and those of more components. */
  function Extended(values: seq<Word32>, more: Result<seq<Word32>, Error>): Result<seq<Word32>, Error>
  {
    if more.Err? then more else Ok(values + more.value)
  }

  function WithLast(before: Result<seq<Word32>, Error>, last: Result<Word32, Error>): Result<seq<Word32>, Error>
  {
    if before.Err? then before else if last.Err? then Err(last.error) else Ok(before.value + [last.value])
  }

  lemma ParseLast(components: seq<string>, last: string)
    ensures ParseComponents(components + [last]) == WithLast(ParseComponents(components), ParseComponent(last))
  {
    assert (components + [last])[..|components|] == components;
  }

  lemma ExtendedWithLast(values: seq<Word32>, before: Result<seq<Word32>, Error>, last: Result<Word32, Error>)
    ensures WithLast(Extended(values, before), last) == Extended(values, WithLast(before, last))
  {
    if before.Ok? && last.Ok? {
      ConcatLast(values, before.value, last.value);
    }
  }

  /** Components that parse put their values before those of the others, or leave their first error. */
  lemma {:induction false} ParseAfter(first: seq<string>, values: seq<Word32>, more: seq<string>)
    requires ParseComponents(first) == Ok(values)
    ensures ParseComponents(first + more) == Extended(values, ParseComponents(more))
    decreases |more|
  {
    if more == [] {
      assert first + more == first && values + [] == values;
    } else {
      var rest, last := more[..|more| - 1], more[|more| - 1];
      ParseAfter(first, values, rest);
      InitLast(more);
      ConcatLast(first, rest, last);
      ParseLast(first + rest, last);
      ParseLast(rest, last);
      ExtendedWithLast(values, ParseComponents(rest), ParseComponent(last));
    }
  }

  lemma RootComponents()
    ensures PrintComponent(0x8000_002C) == "44'" && PrintComponent(0x8000_003C) == "60'"
    ensures PrintComponent(0x8000_0000) == "0'" && PrintComponent(0) == "0"
  {
    assert Decimal(4) == "4" && Decimal(6) == "6";
  }

  lemma PrintOneMore(path: seq<Word32>, component: Word32, longer: seq<Word32>)
    requires longer == path + [component]
    ensures PrintPath(longer) == PrintPath(path) + "/" + PrintComponent(component)
  {
    assert longer[..|path|] == path;
  }

  /** The default root in print. */
  lemma DefaultRootPrints()
    ensures PrintPath(DEFAULT_ROOT) == "m/44'/60'/0'/0"
  {
    RootComponents();
    var coin := [0x8000_002C, 0x8000_003C];
    PrintOneMore([], 0x8000_002C, [0x8000_002C]);
    PrintOneMore([0x8000_002C], 0x8000_003C, coin);
    PrintOneMore(coin, 0x8000_0000, coin + [0x8000_0000]);
    PrintOneMore(coin + [0x8000_0000], 0, DEFAULT_ROOT);
    RootText();
  }

  lemma RootText()
    ensures "m" + "/" + "44'" + "/" + "60'" + "/" + "0'" + "/" + "0" == "m/44'/60'/0'/0"
  {
  }

  /** A path that starts with anything but nothing and `m` means the same, errors included, as the path
      written out from the default root. */
  lemma RelativeIsUnderRoot(text: string)
    requires TrimSpace(Split(text)[0]) != "" && TrimSpace(Split(text)[0]) != "m"
    ensures ParsePath(text) == ParsePath("m/44'/60'/0'/0" + "/" + text)
  {
    DefaultRootPrints();
    SplitJoin("m/44'/60'/0'/0", text);
    PrintedPathSplits(DEFAULT_ROOT);
    RelativeParts(Split(text));
    UnderRoot(DEFAULT_ROOT, Split(text));
  }

  lemma RelativeParts(relative: seq<string>)
    requires relative != [] && KindOf(relative[0]) == Relative
    ensures ParseParts(relative) == Extended(DEFAULT_ROOT, ParseComponents(relative))
  {
  }

  lemma AbsoluteParts(parts: seq<string>, rest: seq<string>)
    requires rest != [] && parts == ["m"] + rest
    ensures ParseParts(parts) == ParseComponents(rest)
  {
    RootIsAbsolute();
    assert parts[0] == "m" && parts[1..] == rest;
  }

  lemma ThreeParts<T>(a: seq<T>, b: seq<T>, c: seq<T>)
    ensures a + b + c == a + (b + c)
  {
  }

  lemma UnderRoot(root: seq<Word32>, relative: seq<string>)
    requires relative != []
    ensures ParseParts(["m"] + PrintComponents(root) + relative) == Extended(root, ParseComponents(relative))
  {
    var components := PrintComponents(root);
    ThreeParts(["m"], components, relative);
    AbsoluteParts(["m"] + (components + relative), components + relative);
    PrintedComponentsParse(root);
    ParseAfter(components, root, relative);
  }

  // ---- Range and sign ----

  /** The text is that of a whole number. */
  predicate Reads(text: string, value: int)
  {
    ParseInt(text).Some? && ParseInt(text).value == value
  }

  lemma DecimalIsNat(n: nat)
    ensures ParseNat(Decimal(n)) == Some(n) && IsDigit(Decimal(n)[0])
  {
    DecimalScans(n);
    DecimalDigits(n);
    assert Decimal(n)[0] in Decimal(n);
  }

  lemma Unsigned(text: string)
    requires text != [] && IsDigit(text[0])
    ensures ParseInt(text) == Signed(ParseNat(text), false)
  {
  }

  lemma DecimalParses(n: nat)
    ensures Reads(Decimal(n), n)
  {
    DecimalIsNat(n);
    Unsigned(Decimal(n));
  }

  /** A number is a component exactly up to 32 bits, and with the quote up to 31, which then sets the
      highest bit. */
  lemma RangeIff(n: nat)
    ensures ParseComponent(Decimal(n)) == if n < 0x1_0000_0000 then Ok(n) else Err(OutOfRange(n, 0xFFFF_FFFF))
    ensures ParseComponent(Decimal(n) + "'")
         == if n < 0x8000_0000 then Ok(0x8000_0000 + n) else Err(OutOfRange(n, 0x7FFF_FFFF))
  {
    DecimalEnds(n);
    PlainComponent(Decimal(n));
    QuotedComponent(Decimal(n));
    DecimalParses(n);
  }

  lemma WithSign(text: string)
    ensures ParseInt("-" + text) == Signed(ParseNat(text), true)
    ensures ParseInt("+" + text) == Signed(ParseNat(text), false)
  {
    assert ("-" + text)[1..] == text == ("+" + text)[1..];
  }

  lemma SignedParses(n: nat)
    ensures Reads("-" + Decimal(n), (0 - n) as int) && Reads("+" + Decimal(n), n)
  {
    DecimalIsNat(n);
    WithSign(Decimal(n));
  }

  lemma SignedComponent(sign: char, n: nat)
    requires sign == '-' || sign == '+'
    ensures ParseComponent([sign] + Decimal(n)) == Convert([sign] + Decimal(n), 0)
  {
    DecimalEnds(n);
    var s := [sign] + Decimal(n);
    assert s[|s| - 1] == Decimal(n)[|Decimal(n)| - 1];
    NothingToTrim(s);
  }

  /** A plus sign is ignored; a minus sign is refused on every number but zero. */
  lemma SignMeaning(n: nat)
    requires n < 0x1_0000_0000
    ensures ParseComponent("+" + Decimal(n)) == Ok(n)
    ensures n == 0 ==> ParseComponent("-" + Decimal(n)) == Ok(0)
    ensures n > 0 ==> ParseComponent("-" + Decimal(n)) == Err(OutOfRange((0 - n) as int, 0xFFFF_FFFF))
  {
    SignedComponent('-', n);
    SignedComponent('+', n);
    SignedParses(n);
  }

  // ---- Bases ----

  function DigitIn(d: nat, upper: bool): char
    requires d < 16
  {
    if d < 10 then '0' + d as char else (if upper then 'A' else 'a') + (d - 10) as char
  }

  /** A number in a base up to 16, with capital or small letters. */
  function InBase(n: nat, base: nat, upper: bool): (s: string)
    requires 2 <= base <= 16
    ensures |s| > 0
  {
    if n < base then [DigitIn(n, upper)] else InBase(n / base, base, upper) + [DigitIn(n % base, upper)]
  }

  lemma ScanDigitIn(scan: Scan, d: nat, base: nat, upper: bool)
    requires scan.Good? && d < base <= 16
    ensures ScanChar(scan, DigitIn(d, upper), base) == Good(scan.value * base + d, scan.count + 1, Digits)
  {
    assert DigitValue(DigitIn(d, upper)) == d;
  }

  lemma QuotientAndRest(n: nat, base: nat)
    requires base > 0
    ensures n / base * base + n % base == n
  {
  }

  lemma OneMoreDigit(digits: string, value: nat, d: nat, base: nat, upper: bool, n: nat)
    requires ScanAll(digits, base, Digits) == Good(value, |digits|, Digits) && d < base <= 16
    requires n == value * base + d
    ensures ScanAll(digits + [DigitIn(d, upper)], base, Digits) == Good(n, |digits| + 1, Digits)
  {
    ScanOneMore(digits, DigitIn(d, upper), base, Digits);
    ScanDigitIn(Good(value, |digits|, Digits), d, base, upper);
  }

  lemma {:induction false} BaseScans(n: nat, base: nat, upper: bool)
    requires 2 <= base <= 16
    ensures ScanAll(InBase(n, base, upper), base, Digits) == Good(n, |InBase(n, base, upper)|, Digits)
  {
    if n < base {
      var none: string := [];
      OneMoreDigit(none, 0, n, base, upper, n);
      assert none + [DigitIn(n, upper)] == InBase(n, base, upper);
    } else {
      BaseScans(n / base, base, upper);
      QuotientAndRest(n, base);
      OneMoreDigit(InBase(n / base, base, upper), n / base, n % base, base, upper, n);
    }
  }

  lemma BaseScanned(n: nat, base: nat, upper: bool)
    requires 2 <= base <= 16
    ensures Scanned(InBase(n, base, upper), base, Digits) == Some(n)
  {
    BaseScans(n, base, upper);
  }

  lemma {:induction false} FirstIsOctal(n: nat, upper: bool)
    ensures InBase(n, 8, upper)[0] !in "bBoOxX"
  {
    if n >= 8 {
      FirstIsOctal(n / 8, upper);
    }
  }

  /** The digits after a prefix are scanned in its base. */
  lemma PrefixBase(letter: char, digits: string)
    ensures letter in "xX" ==> ParseNat(['0', letter] + digits) == Scanned(digits, 16, Digits)
    ensures letter in "oO" ==> ParseNat(['0', letter] + digits) == Scanned(digits, 8, Digits)
    ensures letter in "bB" ==> ParseNat(['0', letter] + digits) == Scanned(digits, 2, Digits)
  {
    var s := ['0', letter] + digits;
    assert s[0] == '0' && s[1] == letter && s[2..] == digits;
  }

  lemma BareZero(digits: string)
    requires digits != [] && digits[0] !in "bBoOxX"
    ensures ParseNat("0" + digits) == Scanned(digits, 8, Digits)
  {
    var s := "0" + digits;
    assert s[0] == '0' && s[1] == digits[0] && s[1..] == digits;
  }

  /** A prefix sets the base of a number: 0x is hexadecimal, 0o or a bare 0 octal, 0b binary. */
  lemma PrefixMeaning(n: nat, letter: char, upper: bool)
    ensures letter in "xX" ==> Reads(['0', letter] + InBase(n, 16, upper), n)
    ensures letter in "oO" ==> Reads(['0', letter] + InBase(n, 8, upper), n)
    ensures letter in "bB" ==> Reads(['0', letter] + InBase(n, 2, upper), n)
    ensures Reads("0" + InBase(n, 8, upper), n)
  {
    var base := if letter in "xX" then 16 else if letter in "oO" then 8 else 2;
    BaseScanned(n, base, upper);
    PrefixBase(letter, InBase(n, base, upper));
    Unsigned(['0', letter] + InBase(n, base, upper));
    BaseScanned(n, 8, upper);
    FirstIsOctal(n, upper);
    BareZero(InBase(n, 8, upper));
    Unsigned("0" + InBase(n, 8, upper));
  }

  /** A character that is no digit of the base and no separator. */
  ghost predicate Foreign(c: char, base: nat)
    requires base <= 16
  {
    c != '_' && forall d: nat, upper :: d < base ==> c != DigitIn(d, upper)
  }

  lemma OwnDigit(c: char)
    ensures DigitValue(c) < 16 ==> c == DigitIn(DigitValue(c), 'A' <= c <= 'Z')
  {
  }

  lemma ForeignValue(c: char, base: nat)
    requires base <= 16 && Foreign(c, base)
    ensures DigitValue(c) >= base
  {
    OwnDigit(c);
  }

  /** Such a character anywhere makes a text no number of that base, and a number has a digit. */
  lemma ForeignRefused(a: string, c: char, b: string, base: nat, start: Last)
    requires base <= 16 && Foreign(c, base)
    ensures Scanned(a + [c] + b, base, start) == None && Scanned([], base, start) == None
  {
    ForeignValue(c, base);
    ScanOneMore(a, c, base, start);
    BadStays(a + [c], b, base, start);
  }

  // ---- Digit separators ----

  /** Where a scan that read something and did not end in a separator stands. */
  lemma AfterDigit(a: string, base: nat, start: Last)
    requires a != [] && a[|a| - 1] != '_'
    ensures ScanAll(a, base, start).Good? ==> ScanAll(a, base, start).last == Digits
  {
  }

  lemma ScanOneMore(s: string, c: char, base: nat, start: Last)
    ensures ScanAll(s + [c], base, start) == ScanChar(ScanAll(s, base, start), c, base)
  {
    assert (s + [c])[..|s|] == s;
  }

  lemma {:induction false} SeparatorScans(a: string, b: string, base: nat, start: Last)
    requires a != [] && a[|a| - 1] != '_' && b != [] && b[0] != '_'
    ensures ScanAll(a + "_" + b, base, start) == ScanAll(a + b, base, start)
    decreases |b|
  {
    var u, c := b[..|b| - 1], b[|b| - 1];
    InitLast(b);
    ConcatLast(a, u, c);
    ConcatLast(a + "_", u, c);
    ScanOneMore(a + u, c, base, start);
    ScanOneMore(a + "_" + u, c, base, start);
    if u == [] {
      assert a + u == a && a + "_" + u == a + "_";
      AfterDigit(a, base, start);
      ScanOneMore(a, '_', base, start);
    } else {
      SeparatorScans(a, u, base, start);
    }
  }

  /** A single separator between two other characters makes no difference to a number. */
  lemma SeparatorIgnored(a: string, b: string, base: nat, start: Last)
    requires a != [] && a[|a| - 1] != '_' && b != [] && b[0] != '_'
    ensures Scanned(a + "_" + b, base, start) == Scanned(a + b, base, start)
  {
    SeparatorScans(a, b, base, start);
  }

  lemma {:induction false} BadStays(a: string, b: string, base: nat, start: Last)
    requires ScanAll(a, base, start).Bad?
    ensures ScanAll(a + b, base, start).Bad?
    decreases |b|
  {
    if b == [] {
      assert a + b == a;
    } else {
      var u, c := b[..|b| - 1], b[|b| - 1];
      BadStays(a, u, base, start);
      InitLast(b);
      ConcatLast(a, u, c);
      ScanOneMore(a + u, c, base, start);
    }
  }

  /** A doubled separator and one at the end are refused, and one at the beginning unless a prefix is
      before it. */
  lemma SeparatorRefused(a: string, b: string, base: nat, start: Last)
    ensures Scanned(a + "_" + "_" + b, base, start) == None
    ensures Scanned(a + "_", base, start) == None
    ensures Scanned("_" + b, base, Start) == None
  {
    ScanOneMore(a, '_', base, start);
    ScanOneMore(a + "_", '_', base, start);
    BadStays(a + "_" + "_", b, base, start);
    assert ScanAll([], base, Start) == Good(0, 0, Start);
    ScanOneMore([], '_', base, Start);
    assert [] + ['_'] == "_";
    BadStays("_", b, base, Start);
  }
}

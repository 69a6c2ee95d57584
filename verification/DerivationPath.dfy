/** Parsing and printing of hierarchical wallet derivation paths. */
module DerivationPath {
  import opened Common

  type Word32 = n: nat | n < 0x1_0000_0000

  const HARDENED: nat := 0x8000_0000
  const MAX_WORD32: nat := 0xFFFF_FFFF

  datatype Error = EmptyPath | AmbiguousPath | InvalidComponent(component: string) | OutOfRange(value: int, max: nat)

  /** m/44'/60'/0'/0 */
  const DEFAULT_ROOT: seq<Word32> := [0x8000_002C, 0x8000_003C, 0x8000_0000, 0]

  // ---- Text ----

  /** Unicode white space. */
  predicate IsSpace(c: char) {
    var n := c as int;
    9 <= n <= 13 || n == 0x20 || n == 0x85 || n == 0xA0 || n == 0x1680 || 0x2000 <= n <= 0x200A
    || n == 0x2028 || n == 0x2029 || n == 0x202F || n == 0x205F || n == 0x3000
  }

  function TrimLeft(s: string): string {
    if s != [] && IsSpace(s[0]) then TrimLeft(s[1..]) else s
  }

  function TrimRight(s: string): string {
    if s != [] && IsSpace(s[|s| - 1]) then TrimRight(s[..|s| - 1]) else s
  }

  function TrimSpace(s: string): string {
    TrimRight(TrimLeft(s))
  }

  predicate AllSpace(s: string) {
    forall c :: c in s ==> IsSpace(c)
  }

  /** The parts of a string between the slashes; never empty. */
  function Split(s: string): (parts: seq<string>)
    ensures |parts| > 0
  {
    if s == [] then [[]] else Push(Split(s[..|s| - 1]), s[|s| - 1])
  }

  /** One more character: it starts a new part or extends the last one. */
  function Push(parts: seq<string>, c: char): (more: seq<string>)
    requires |parts| > 0
    ensures |more| > 0
  {
    if c == '/' then parts + [[]] else parts[..|parts| - 1] + [parts[|parts| - 1] + [c]]
  }

  // ---- Numbers ----

  function Digit(d: nat): char
    requires d < 10
  {
    '0' + d as char
  }

  /** Decimal notation. */
  function Decimal(n: nat): (s: string)
    ensures |s| > 0
  {
    if n < 10 then [Digit(n)] else Decimal(n / 10) + [Digit(n % 10)]
  }

  /** The digit a character stands for, up to base 36; larger for all others. */
  function DigitValue(c: char): nat {
    if '0' <= c <= '9' then (c - '0') as nat
    else if 'a' <= c <= 'z' then (c - 'a') as nat + 10
    else if 'A' <= c <= 'Z' then (c - 'A') as nat + 10
    else 63
  }

  datatype Last = Start | Digits | Separator

  /** The scanner: what was read so far, or that it can no longer be a number. */
  datatype Scan = Bad | Good(value: nat, count: nat, last: Last)

  function ScanChar(scan: Scan, c: char, base: nat): Scan {
    if scan.Bad? then Bad
    else if c == '_' then
      (if scan.last.Digits? then scan.(last := Separator) else Bad)
    else if DigitValue(c) >= base then Bad
    else Good(scan.value * base + DigitValue(c), scan.count + 1, Digits)
  }

  function ScanAll(s: string, base: nat, start: Last): Scan {
    if s == [] then Good(0, 0, start) else ScanChar(ScanAll(s[..|s| - 1], base, start), s[|s| - 1], base)
  }

  function Scanned(s: string, base: nat, start: Last): Option<nat> {
    var scan := ScanAll(s, base, start);
    if scan.Good? && scan.count > 0 && scan.last.Digits? then Some(scan.value) else None
  }

  /** An unsigned number with the base taken from its prefix, as in Go: 0b, 0o, 0x, or 0 for octal. */
  function ParseNat(s: string): Option<nat> {
    if |s| < 2 || s[0] != '0' then Scanned(s, 10, Start)
    else if s[1] in "bB" then Scanned(s[2..], 2, Digits)
    else if s[1] in "oO" then Scanned(s[2..], 8, Digits)
    else if s[1] in "xX" then Scanned(s[2..], 16, Digits)
    else Scanned(s[1..], 8, Digits)
  }

  /** A signed number, with nothing left over. */
  function ParseInt(s: string): Option<int> {
    if s == [] then None
    else if s[0] == '-' then Signed(ParseNat(s[1..]), true)
    else if s[0] == '+' then Signed(ParseNat(s[1..]), false)
    else Signed(ParseNat(s), false)
  }

  function Signed(n: Option<nat>, negative: bool): Option<int> {
    match n
    case None => None
    case Some(value) =>
      var signed: int := if negative then 0 - value else value;
      Some(signed)
  }

  // ---- Components ----

  /** A number within the range that starts at `base`. */
  function Convert(number: string, base: nat): Result<Word32, Error>
    requires base <= HARDENED
  {
    var value := ParseInt(number);
    if value.None? then Err(InvalidComponent(number))
    else if value.value < 0 || value.value > MAX_WORD32 - base then Err(OutOfRange(value.value, MAX_WORD32 - base))
    else Ok(base + value.value)
  }

  predicate Quoted(s: string) {
    s != [] && s[|s| - 1] == '\''
  }

  function ParseTrimmed(c: string): Result<Word32, Error> {
    if Quoted(c) then Convert(TrimSpace(c[..|c| - 1]), HARDENED) else Convert(c, 0)
  }

  /** One component: a number, hardened by a trailing quote; white space around either is ignored. */
  function ParseComponent(component: string): Result<Word32, Error> {
    ParseTrimmed(TrimSpace(component))
  }

  /** All components, or the first error. */
  function ParseComponents(components: seq<string>): Result<seq<Word32>, Error> {
    if components == [] then Ok([])
    else
      var rest := ParseComponents(components[..|components| - 1]);
      if rest.Err? then rest
      else
        var last := ParseComponent(components[|components| - 1]);
        if last.Err? then Err(last.error) else Ok(rest.value + [last.value])
  }

  /** A path after `m`, or one relative to the default root. */
  function ParsePath(path: string): Result<seq<Word32>, Error> {
    ParseParts(Split(path))
  }

  datatype Kind = Ambiguous | Absolute | Relative

  /** What the first component says about the path. */
  function KindOf(first: string): Kind {
    var t := TrimSpace(first);
    if |t| == 0 then Ambiguous else if |t| == 1 && t[0] == 'm' then Absolute else Relative
  }

  function ParseParts(components: seq<string>): Result<seq<Word32>, Error>
    requires |components| > 0
  {
    match KindOf(components[0])
    case Ambiguous => Err(AmbiguousPath)
    case Absolute => if |components| == 1 then Err(EmptyPath) else ParseComponents(components[1..])
    case Relative =>
      var relative := ParseComponents(components);
      if relative.Err? then relative else Ok(DEFAULT_ROOT + relative.value)
  }

  function PrintComponent(component: Word32): string {
    if component >= HARDENED then Decimal(component - HARDENED) + "'" else Decimal(component)
  }

  function PrintComponents(path: seq<Word32>): seq<string> {
    if path == [] then [] else PrintComponents(path[..|path| - 1]) + [PrintComponent(path[|path| - 1])]
  }

  function PrintPath(path: seq<Word32>): string {
    if path == [] then "m" else PrintPath(path[..|path| - 1]) + "/" + PrintComponent(path[|path| - 1])
  }

  // ---- The round trip ----

  predicate IsDigit(c: char) {
    '0' <= c <= '9'
  }

  lemma ScanDigit(value: nat, count: nat, last: Last, d: nat)
    requires d < 10
    ensures ScanChar(Good(value, count, last), Digit(d), 10) == Good(value * 10 + d, count + 1, Digits)
    ensures IsDigit(Digit(d)) && (Digit(d) == '0' ==> d == 0)
  {
  }

  /** Decimal notation has only digits, and a leading zero only for zero itself. */
  lemma {:induction false} DecimalDigits(n: nat)
    ensures forall c :: c in Decimal(n) ==> IsDigit(c)
    ensures Decimal(n)[0] == '0' ==> n == 0
  {
    ScanDigit(0, 0, Start, n % 10);
    if n >= 10 {
      DecimalDigits(n / 10);
    }
  }

  /** Decimal notation scans back to the number. */
  lemma {:induction false} DecimalScans(n: nat)
    ensures ScanAll(Decimal(n), 10, Start) == Good(n, |Decimal(n)|, Digits)
  {
    var s := Decimal(n);
    if n < 10 {
      ScanDigit(0, 0, Start, n);
      assert s[..0] == [];
    } else {
      DecimalScans(n / 10);
      ScanDigit(n / 10, |Decimal(n / 10)|, Digits, n % 10);
      assert s[..|s| - 1] == Decimal(n / 10);
    }
  }

  /** A number that starts with a digit, and with a zero only if that is all, is decimal. */
  lemma PlainNumber(s: string)
    requires s != [] && IsDigit(s[0]) && (s[0] == '0' ==> |s| == 1)
    ensures ParseInt(s) == Signed(Scanned(s, 10, Start), false)
  {
  }

  lemma DecimalConverts(n: nat, base: nat)
    requires base <= HARDENED && n <= MAX_WORD32 - base
    ensures Convert(Decimal(n), base) == Ok(base + n)
  {
    DecimalScans(n);
    DecimalDigits(n);
    assert IsDigit(Decimal(n)[0]);
    PlainNumber(Decimal(n));
  }

  /** Text without white space at its ends is not trimmed. */
  lemma NothingToTrim(s: string)
    requires s == [] || (!IsSpace(s[0]) && !IsSpace(s[|s| - 1]))
    ensures TrimSpace(s) == s
  {
  }

  lemma DecimalEnds(n: nat)
    ensures var s := Decimal(n); IsDigit(s[0]) && IsDigit(s[|s| - 1]) && '/' !in s
  {
    DecimalDigits(n);
    var s := Decimal(n);
    assert s[0] in s && s[|s| - 1] in s;
  }

  lemma PlainComponent(s: string)
    requires s != [] && IsDigit(s[0]) && IsDigit(s[|s| - 1])
    ensures ParseComponent(s) == Convert(s, 0)
  {
    NothingToTrim(s);
  }

  lemma QuotedComponent(s: string)
    requires s != [] && IsDigit(s[0]) && IsDigit(s[|s| - 1])
    ensures ParseComponent(s + "'") == Convert(s, HARDENED)
  {
    var t := s + "'";
    assert t[0] == s[0] && t[|t| - 1] == '\'' && t[..|t| - 1] == s;
    NothingToTrim(s);
    NothingToTrim(t);
  }

  lemma PrintedComponentParses(component: Word32)
    ensures ParseComponent(PrintComponent(component)) == Ok(component)
    ensures '/' !in PrintComponent(component)
  {
    if component >= HARDENED {
      DecimalEnds(component - HARDENED);
      QuotedComponent(Decimal(component - HARDENED));
      DecimalConverts(component - HARDENED, HARDENED);
    } else {
      DecimalEnds(component);
      PlainComponent(Decimal(component));
      DecimalConverts(component, 0);
    }
  }

  /** Text without a slash extends the last part. */
  lemma {:induction false} SplitExtend(s: string, before: seq<string>, t: string)
    requires Split(s) == before + [[]] && '/' !in t
    ensures Split(s + t) == before + [t]
    decreases |t|
  {
    if t == [] {
      assert s + t == s;
    } else {
      var u, c := t[..|t| - 1], t[|t| - 1];
      SplitExtend(s, before, u);
      InitLast(t);
      ConcatLast(s, u, c);
      SplitOneMore(s + u, c);
      PushLast(before, u, c);
    }
  }

  lemma ConcatLast<T>(a: seq<T>, b: seq<T>, c: T)
    ensures a + (b + [c]) == (a + b) + [c]
  {
  }

  /** Text without a slash becomes the last part. */
  lemma SplitAppend(s: string, t: string)
    requires '/' !in t
    ensures Split(s + "/" + t) == Split(s) + [t]
  {
    SplitOneMore(s, '/');
    SplitExtend(s + "/", Split(s), t);
  }

  lemma SplitRoot()
    ensures Split("m") == ["m"]
  {
    var empty: string := [];
    assert "m"[..0] == empty && Split(empty) == [empty];
    assert empty + ['m'] == "m" && Split(empty)[..0] == [];
  }

  lemma {:induction false} PrintedPathSplits(path: seq<Word32>)
    ensures Split(PrintPath(path)) == ["m"] + PrintComponents(path)
  {
    if path == [] {
      SplitRoot();
    } else {
      var rest, last := path[..|path| - 1], path[|path| - 1];
      PrintedPathSplits(rest);
      PrintedComponentParses(last);
      SplitAppend(PrintPath(rest), PrintComponent(last));
    }
  }

  lemma InitLast<T>(s: seq<T>)
    requires |s| > 0
    ensures s == s[..|s| - 1] + [s[|s| - 1]]
  {
  }

  lemma ParseOneMore(components: seq<string>, component: string, values: seq<Word32>, value: Word32)
    requires ParseComponents(components) == Ok(values) && ParseComponent(component) == Ok(value)
    ensures ParseComponents(components + [component]) == Ok(values + [value])
  {
    assert (components + [component])[..|components|] == components;
  }

  lemma {:induction false} PrintedComponentsParse(path: seq<Word32>)
    ensures |PrintComponents(path)| == |path|
    ensures ParseComponents(PrintComponents(path)) == Ok(path)
  {
    if path != [] {
      var rest, last := path[..|path| - 1], path[|path| - 1];
      PrintedComponentsParse(rest);
      PrintedComponentParses(last);
      ParseOneMore(PrintComponents(rest), PrintComponent(last), rest, last);
      InitLast(path);
    }
  }

  /** Parsing what is printed gives the path back, for every non-empty path. */
  lemma RoundTrip(path: seq<Word32>)
    requires path != []
    ensures ParsePath(PrintPath(path)) == Ok(path)
  {
    PrintedPathSplits(path);
    PrintedComponentsParse(path);
    RootIsAbsolute();
    var components := Split(PrintPath(path));
    assert components[0] == "m" && components[1..] == PrintComponents(path);
  }

  /** The empty path prints as text that does not parse, so the round trip needs a component. */
  lemma EmptyDoesNotRoundTrip()
    ensures ParsePath(PrintPath([])) == Err(EmptyPath)
  {
    SplitRoot();
    RootIsAbsolute();
  }

  lemma RootIsAbsolute()
    ensures KindOf("m") == Absolute
  {
    NothingToTrim("m");
  }

  /** Every path that parses has a component, so printing it reaches a fixed point: the printed form
      parses to the same path and prints as itself. */
  lemma PrintingIsCanonical(text: string)
    requires ParsePath(text).Ok?
    ensures var path := ParsePath(text).value;
            path != [] && ParsePath(PrintPath(path)) == Ok(path)
  {
    var components := Split(text);
    ParsedLength(components);
    ParsedLength(components[1..]);
    RoundTrip(ParsePath(text).value);
  }

  lemma {:induction false} ParsedLength(components: seq<string>)
    ensures ParseComponents(components).Ok? ==> |ParseComponents(components).value| == |components|
  {
    if components != [] {
      ParsedLength(components[..|components| - 1]);
    }
  }

  // ---- White space ----

  lemma {:induction false} TrimLeftSpaces(w: string, s: string)
    requires AllSpace(w)
    ensures TrimLeft(w + s) == TrimLeft(s)
  {
    if w == [] {
      assert w + s == s;
    } else {
      assert (w + s)[1..] == w[1..] + s;
      assert w[0] in w;
      TrimLeftSpaces(w[1..], s);
    }
  }

  lemma {:induction false} TrimRightSpaces(s: string, w: string)
    requires AllSpace(w)
    ensures TrimRight(s + w) == TrimRight(s)
    decreases |w|
  {
    if w == [] {
      assert s + w == s;
    } else {
      var last := |w| - 1;
      assert (s + w)[..|s| + last] == s + w[..last];
      assert w[last] in w;
      TrimRightSpaces(s, w[..last]);
    }
  }

  lemma {:induction false} TrimLeftBefore(s: string, w: string)
    requires AllSpace(w)
    ensures TrimRight(TrimLeft(s + w)) == TrimRight(TrimLeft(s))
  {
    if s == [] {
      assert s + w == w + [];
      TrimLeftSpaces(w, []);
    } else if IsSpace(s[0]) {
      assert (s + w)[1..] == s[1..] + w;
      TrimLeftBefore(s[1..], w);
    } else {
      TrimRightSpaces(s, w);
    }
  }

  /** White space around a component makes no difference. */
  lemma WhiteSpaceIgnored(before: string, component: string, after: string)
    requires AllSpace(before) && AllSpace(after)
    ensures ParseComponent(before + component + after) == ParseComponent(component)
  {
    assert before + component + after == before + (component + after);
    TrimLeftSpaces(before, component + after);
    TrimLeftBefore(component, after);
  }

  lemma {:induction false} TrimBeforeQuote(s: string)
    ensures TrimLeft(s + "'") == TrimLeft(s) + "'"
    ensures TrimLeft(TrimLeft(s)) == TrimLeft(s)
  {
    if s != [] && IsSpace(s[0]) {
      assert (s + "'")[1..] == s[1..] + "'";
      TrimBeforeQuote(s[1..]);
    } else if s == [] {
      assert s + "'" == "'";
    }
  }

  lemma QuotedParses(s: string)
    ensures ParseComponent(s + "'") == Convert(TrimSpace(s), HARDENED)
  {
    TrimBeforeQuote(s);
    var t := TrimLeft(s) + "'";
    assert t[|t| - 1] == '\'' && t[..|t| - 1] == TrimLeft(s);
    assert TrimRight(t) == t;
  }

  /** White space between a number and its quote makes no difference. */
  lemma WhiteSpaceBeforeQuote(number: string, w: string)
    requires AllSpace(w)
    ensures ParseComponent(number + w + "'") == ParseComponent(number + "'")
  {
    QuotedParses(number);
    QuotedParses(number + w);
    TrimLeftBefore(number, w);
  }

  // ---- White space inside a number ----

  predicate HasSpace(s: string) {
    exists c :: c in s && IsSpace(c)
  }

  /** All white space removed. */
  function Strip(s: string): string {
    if s == [] then []
    else Strip(s[..|s| - 1]) + if IsSpace(s[|s| - 1]) then [] else [s[|s| - 1]]
  }

  /** The number of a component: its text trimmed, less its quote, trimmed again. */
  function NumberText(text: string): string {
    var c := TrimSpace(text);
    if Quoted(c) then TrimSpace(c[..|c| - 1]) else c
  }

  function BaseOf(text: string): (base: nat)
    ensures base <= HARDENED
  {
    if Quoted(TrimSpace(text)) then HARDENED else 0
  }

  /** A scan that meets white space fails. */
  lemma {:induction false} SpaceNeverScans(s: string, base: nat, start: Last)
    requires HasSpace(s) && base <= 16
    ensures ScanAll(s, base, start).Bad?
  {
    var rest, last := s[..|s| - 1], s[|s| - 1];
    if !IsSpace(last) {
      var c :| c in s && IsSpace(c);
      assert s == rest + [last];
      assert c in rest;
      SpaceNeverScans(rest, base, start);
    }
  }

  lemma SpaceAfter(s: string, n: nat)
    requires HasSpace(s) && n <= |s| && !HasSpace(s[..n])
    ensures HasSpace(s[n..])
  {
    assert s == s[..n] + s[n..];
    var c :| c in s && IsSpace(c);
    assert c in s[n..];
  }

  lemma SpaceNeverParsesNat(s: string)
    requires HasSpace(s)
    ensures ParseNat(s) == None
  {
    if |s| < 2 || s[0] != '0' {
      SpaceNeverScans(s, 10, Start);
    } else if s[1] in "bBoOxX" {
      SpaceAfter(s, 2);
      SpaceNeverScans(s[2..], 2, Digits);
      SpaceNeverScans(s[2..], 8, Digits);
      SpaceNeverScans(s[2..], 16, Digits);
    } else {
      SpaceAfter(s, 1);
      SpaceNeverScans(s[1..], 8, Digits);
    }
  }

  /** No number has white space in it, in any base and with any sign. */
  lemma SpaceNeverParses(s: string)
    requires HasSpace(s)
    ensures ParseInt(s) == None
  {
    if s[0] == '-' || s[0] == '+' {
      SpaceAfter(s, 1);
      SpaceNeverParsesNat(s[1..]);
    } else {
      SpaceNeverParsesNat(s);
    }
  }

  lemma {:induction false} StripConcat(s: string, t: string)
    ensures Strip(s + t) == Strip(s) + Strip(t)
    decreases |t|
  {
    if t == [] {
      assert s + t == s;
    } else {
      assert (s + t)[..|s + t| - 1] == s + t[..|t| - 1];
      StripConcat(s, t[..|t| - 1]);
    }
  }

  lemma {:induction false} StripNothing(s: string)
    requires !HasSpace(s)
    ensures Strip(s) == s
  {
    if s != [] {
      var rest, last := s[..|s| - 1], s[|s| - 1];
      assert s == rest + [last];
      assert last in s;
      StripNothing(rest);
    }
  }

  lemma {:induction false} StripLeavesNone(s: string)
    ensures !HasSpace(Strip(s))
  {
    if s != [] {
      StripLeavesNone(s[..|s| - 1]);
    }
  }

  lemma {:induction false} StripTrimLeft(s: string)
    ensures Strip(TrimLeft(s)) == Strip(s)
  {
    if s != [] && IsSpace(s[0]) {
      StripTrimLeft(s[1..]);
      assert s == [s[0]] + s[1..];
      StripConcat([s[0]], s[1..]);
      assert Strip([s[0]]) == [];
    }
  }

  lemma {:induction false} StripTrimRight(s: string)
    ensures Strip(TrimRight(s)) == Strip(s)
    ensures TrimRight(s) == [] || !IsSpace(TrimRight(s)[|TrimRight(s)| - 1])
  {
    if s != [] && IsSpace(s[|s| - 1]) {
      StripTrimRight(s[..|s| - 1]);
    }
  }

  /** Trimming removes only white space, and leaves none at the end. */
  lemma StripTrim(s: string)
    ensures Strip(TrimSpace(s)) == Strip(s)
    ensures var t := TrimSpace(s); t == [] || !IsSpace(t[|t| - 1])
  {
    StripTrimLeft(s);
    StripTrimRight(TrimLeft(s));
  }

  lemma TrimStripped(s: string)
    requires !HasSpace(s)
    ensures TrimSpace(s) == s
  {
    if s != [] {
      assert s[0] in s && s[|s| - 1] in s;
      NothingToTrim(s);
    }
  }

  /** Stripping a component strips its number and keeps its quote. */
  lemma StrippedComponent(text: string)
    ensures ParseComponent(text) == Convert(NumberText(text), BaseOf(text))
    ensures ParseComponent(Strip(text)) == Convert(Strip(NumberText(text)), BaseOf(text))
  {
    var c := TrimSpace(text);
    StripTrim(text);
    StripLeavesNone(text);
    TrimStripped(Strip(text));
    if c != [] {
      assert Strip(c) == Strip(c[..|c| - 1]) + [c[|c| - 1]];
    }
    if Quoted(c) {
      var inner := c[..|c| - 1];
      StripTrim(inner);
      StripLeavesNone(inner);
      TrimStripped(Strip(inner));
      assert Strip(c)[..|Strip(c)| - 1] == Strip(inner);
    }
  }

  /** Where a component parses once all white space is removed, it parses to the same value as it
      stands if and only if there is no white space inside its number. */
  lemma WhiteSpaceIgnoredIff(text: string)
    requires ParseComponent(Strip(text)).Ok?
    ensures ParseComponent(text) == ParseComponent(Strip(text)) <==> !HasSpace(NumberText(text))
  {
    StrippedComponent(text);
    if HasSpace(NumberText(text)) {
      SpaceNeverParses(NumberText(text));
    } else {
      StripNothing(NumberText(text));
    }
  }

  /** "Whitespace is ignored" fails for this component. */
  lemma InnerSpaceIsNotIgnored()
    ensures ParseComponent("1 2").Err? && ParseComponent("12") == Ok(12)
  {
    NothingToTrim("1 2");
    assert ' ' in "1 2";
    SpaceNeverParses("1 2");
    PrintedComponentParses(12);
    assert Decimal(12) == Decimal(1) + [Digit(2)] == "12";
  }

  /** No component has white space inside its number. */
  predicate Compact(components: seq<string>) {
    forall c :: c in components ==> !HasSpace(NumberText(c))
  }

  function StripAll(components: seq<string>): (stripped: seq<string>)
    ensures |stripped| == |components|
  {
    if components == [] then []
    else StripAll(components[..|components| - 1]) + [Strip(components[|components| - 1])]
  }

  lemma StripOneMore(s: string, c: char)
    ensures Strip(s + [c]) == if IsSpace(c) then Strip(s) else Strip(s) + [c]
  {
    assert (s + [c])[..|s|] == s;
  }

  lemma PushLast(before: seq<string>, last: string, c: char)
    requires c != '/'
    ensures Push(before + [last], c) == before + [last + [c]]
  {
    assert (before + [last])[..|before|] == before;
  }

  lemma StripPush(before: seq<string>, last: string, c: char)
    ensures StripAll(Push(before + [last], c))
            == if IsSpace(c) then StripAll(before + [last]) else Push(StripAll(before + [last]), c)
  {
    StripAllAppend(before, last);
    if c == '/' {
      StripAllAppend(before + [last], []);
    } else {
      PushLast(before, last, c);
      StripAllAppend(before, last + [c]);
      StripOneMore(last, c);
      PushLast(StripAll(before), Strip(last), c);
    }
  }

  /** Stripping a path strips its components. */
  lemma {:induction false} StripSplit(path: string)
    ensures Split(Strip(path)) == StripAll(Split(path))
  {
    if path == [] {
      StripAllAppend([], []);
    } else {
      var rest, c := path[..|path| - 1], path[|path| - 1];
      assert path == rest + [c];
      StripSplit(rest);
      StripSplitOneMore(rest, c);
    }
  }

  lemma StripSplitOneMore(s: string, c: char)
    requires Split(Strip(s)) == StripAll(Split(s))
    ensures Split(Strip(s + [c])) == StripAll(Split(s + [c]))
  {
    StripOneMore(s, c);
    SplitOneMore(s, c);
    SplitOneMore(Strip(s), c);
    StripPushed(Split(s), c);
  }

  lemma StripPushed(parts: seq<string>, c: char)
    requires |parts| > 0
    ensures StripAll(Push(parts, c)) == if IsSpace(c) then StripAll(parts) else Push(StripAll(parts), c)
  {
    InitLast(parts);
    StripPush(parts[..|parts| - 1], parts[|parts| - 1], c);
  }

  lemma SplitOneMore(s: string, c: char)
    ensures Split(s + [c]) == Push(Split(s), c)
  {
    assert (s + [c])[..|s|] == s;
  }

  lemma StripAllAppend(components: seq<string>, last: string)
    ensures StripAll(components + [last]) == StripAll(components) + [Strip(last)]
  {
    assert (components + [last])[..|components|] == components;
  }

  lemma {:induction false} CompactSame(components: seq<string>)
    requires Compact(components)
    ensures ParseComponents(components) == ParseComponents(StripAll(components))
  {
    if components != [] {
      var rest, last := components[..|components| - 1], components[|components| - 1];
      assert last in components && forall c :: c in rest ==> c in components;
      CompactSame(rest);
      StripNothing(NumberText(last));
      StrippedComponent(last);
      assert StripAll(components)[..|rest|] == StripAll(rest);
    }
  }

  lemma {:induction false} CompactOrErr(components: seq<string>)
    requires !Compact(components)
    ensures ParseComponents(components).Err?
  {
    var rest, last := components[..|components| - 1], components[|components| - 1];
    assert components == rest + [last];
    if HasSpace(NumberText(last)) {
      StrippedComponent(last);
      SpaceNeverParses(NumberText(last));
    } else {
      CompactOrErr(rest);
    }
  }

  lemma {:induction false} TrimRightIsPrefix(s: string)
    ensures TrimRight(s) <= s
  {
    if s != [] && IsSpace(s[|s| - 1]) {
      TrimRightIsPrefix(s[..|s| - 1]);
    }
  }

  lemma {:induction false} TrimLeftStart(s: string)
    ensures TrimLeft(s) == [] || !IsSpace(TrimLeft(s)[0])
  {
    if s != [] && IsSpace(s[0]) {
      TrimLeftStart(s[1..]);
    }
  }

  /** Both ends of trimmed text survive stripping. */
  lemma StripKeepsEnds(t: string)
    requires |t| > 1 && !IsSpace(t[0]) && !IsSpace(t[|t| - 1])
    ensures |Strip(t)| > 1
  {
    var init := t[..|t| - 1];
    InitLast(t);
    StripOneMore(init, t[|t| - 1]);
    StripFirstKept(init);
  }

  lemma {:induction false} StripFirstKept(s: string)
    requires s != [] && !IsSpace(s[0])
    ensures Strip(s) != []
  {
    if |s| > 1 {
      StripFirstKept(s[..|s| - 1]);
    }
  }

  lemma TrimEnds(s: string)
    ensures var t := TrimSpace(s); t == [] || (!IsSpace(t[0]) && !IsSpace(t[|t| - 1]))
  {
    StripTrim(s);
    TrimLeftStart(s);
    TrimRightIsPrefix(TrimLeft(s));
  }

  /** Text that is one character once stripped is that character once trimmed. */
  lemma TrimToOne(s: string, c: char)
    requires Strip(s) == [c]
    ensures TrimSpace(s) == [c]
  {
    var t := TrimSpace(s);
    StripTrim(s);
    TrimEnds(s);
    if |t| > 1 {
      StripKeepsEnds(t);
    } else {
      TrimStripped(t);
      StripNothing(t);
    }
  }

  /** Stripping does not change the kind of a path ... */
  lemma SameKind(first: string)
    ensures KindOf(Strip(first)) == KindOf(first)
  {
    StripTrim(first);
    StripLeavesNone(first);
    TrimStripped(Strip(first));
    if |Strip(first)| == 1 {
      TrimToOne(first, Strip(first)[0]);
    }
  }

  /** ... and an absolute one has no number to begin with. */
  lemma RootHasNoSpace(first: string)
    requires KindOf(first).Absolute?
    ensures !HasSpace(NumberText(first))
  {
    assert forall c :: c in TrimSpace(first) ==> c == 'm';
  }

  lemma CompactRest(parts: seq<string>)
    requires |parts| > 0 && !HasSpace(NumberText(parts[0]))
    ensures Compact(parts) <==> Compact(parts[1..])
  {
    assert parts == [parts[0]] + parts[1..];
  }

  lemma FromComponents(parts: seq<string>, stripped: seq<string>, compact: bool)
    requires |parts| == |stripped| > 0 && KindOf(parts[0]) == KindOf(stripped[0]) && ParseParts(stripped).Ok?
    requires KindOf(parts[0]).Absolute? ==>
               if compact then ParseComponents(parts[1..]) == ParseComponents(stripped[1..])
               else ParseComponents(parts[1..]).Err?
    requires KindOf(parts[0]).Relative? ==>
               if compact then ParseComponents(parts) == ParseComponents(stripped) else ParseComponents(parts).Err?
    ensures ParseParts(parts) == ParseParts(stripped) <==> compact
  {
  }

  lemma CompactComponents(components: seq<string>)
    ensures if Compact(components) then ParseComponents(components) == ParseComponents(StripAll(components))
            else ParseComponents(components).Err?
  {
    if Compact(components) {
      CompactSame(components);
    } else {
      CompactOrErr(components);
    }
  }

  /** Whether the components that are numbers are compact. */
  ghost predicate NumbersCompact(parts: seq<string>)
    requires |parts| > 0
  {
    if KindOf(parts[0]).Absolute? then Compact(parts[1..]) else Compact(parts)
  }

  lemma NumbersCompactIff(parts: seq<string>)
    requires |parts| > 0
    ensures NumbersCompact(parts) <==> Compact(parts)
  {
    if KindOf(parts[0]).Absolute? {
      RootHasNoSpace(parts[0]);
      CompactRest(parts);
    }
  }

  lemma PartsIgnoreIff(parts: seq<string>, stripped: seq<string>)
    requires |parts| > 0 && stripped == StripAll(parts) && ParseParts(stripped).Ok?
    ensures ParseParts(parts) == ParseParts(stripped) <==> NumbersCompact(parts)
  {
    StripFirst(parts);
    SameKind(parts[0]);
    CompactComponents(parts[1..]);
    CompactComponents(parts);
    FromComponents(parts, stripped, NumbersCompact(parts));
  }

  /** The same for whole paths: where a path parses once all white space is removed, it parses to the
      same path as it stands if and only if no component has white space inside its number. */
  lemma PathWhiteSpaceIgnoredIff(path: string)
    requires ParsePath(Strip(path)).Ok?
    ensures ParsePath(path) == ParsePath(Strip(path)) <==> Compact(Split(path))
  {
    StripSplit(path);
    NumbersCompactIff(Split(path));
    PartsIgnoreIff(Split(path), Split(Strip(path)));
  }

  lemma {:induction false} StripFirst(parts: seq<string>)
    requires |parts| > 0
    ensures StripAll(parts)[0] == Strip(parts[0]) && StripAll(parts)[1..] == StripAll(parts[1..])
  {
    var n := |parts| - 1;
    if n > 0 {
      StripFirst(parts[..n]);
      assert parts[..n][1..] == parts[1..][..n - 1];
    }
  }

  // ---- The source's loops ----

  /** Builds the text component by component. */
  method String(path: seq<Word32>) returns (text: string)
    ensures text == PrintPath(path)
  {
    text := "m";
    for i := 0 to |path|
      invariant text == PrintPath(path[..i])
    {
      var component: nat := path[i];
      var hardened := false;
      if component >= HARDENED {
        component := component - HARDENED;
        hardened := true;
      }
      assert path[..i + 1][..i] == path[..i];
      ghost var before := text;
      text := text + "/" + Decimal(component);
      if hardened {
        text := text + "'";
      }
      assert text == before + "/" + PrintComponent(path[i]);
    }
    assert path[..|path|] == path;
  }

  /** Parses the components one by one onto `start`. */
  method ParseOnto(start: seq<Word32>, components: seq<string>) returns (r: Result<seq<Word32>, Error>)
    ensures var parsed := ParseComponents(components);
            r == if parsed.Err? then parsed else Ok(start + parsed.value)
  {
    var result := start;
    for i := 0 to |components|
      invariant ParseComponents(components[..i]).Ok? && result == start + ParseComponents(components[..i]).value
    {
      ghost var done := components[..i + 1];
      assert done[..i] == components[..i] && done[i] == components[i];
      var value := ParseOne(components[i]);
      if value.Err? {
        FirstErrorWins(components, i);
        return Err(value.error);
      }
      result := result + [value.value];
    }
    assert components[..|components|] == components;
    return Ok(result);
  }

  lemma {:induction false} FirstErrorWins(components: seq<string>, i: nat)
    requires i < |components| && ParseComponents(components[..i + 1]).Err?
    ensures ParseComponents(components) == ParseComponents(components[..i + 1])
    decreases |components|
  {
    if i + 1 == |components| {
      assert components[..i + 1] == components;
    } else {
      var rest := components[..|components| - 1];
      assert rest[..i + 1] == components[..i + 1];
      FirstErrorWins(rest, i);
    }
  }

  /** One turn of the loop: trims, strips the quote, converts and checks the range. */
  method ParseOne(text: string) returns (r: Result<Word32, Error>)
    ensures r == ParseComponent(text)
  {
    var component := TrimSpace(text);
    var value := 0;
    if Quoted(component) {
      value := HARDENED;
      component := TrimSpace(component[..|component| - 1]);
    }
    r := InRange(component, value);
  }

  /** Converts a number and checks that it fits behind `value`. */
  method InRange(component: string, value: nat) returns (r: Result<Word32, Error>)
    requires value <= HARDENED
    ensures r == Convert(component, value)
  {
    var bigval := ParseInt(component);
    if bigval.None? {
      return Err(InvalidComponent(component));
    }
    var max := MAX_WORD32 - value;
    if bigval.value < 0 || bigval.value > max {
      return Err(OutOfRange(bigval.value, max));
    }
    return Ok(value + bigval.value);
  }

  /** Parses a path, absolute after `m/` or relative to the default root. */
  method ParseDerivationPath(path: string) returns (r: Result<seq<Word32>, Error>)
    ensures r == ParsePath(path)
  {
    var result: seq<Word32> := [];
    var components := Split(path);
    if TrimSpace(components[0]) == "" {
      return Err(AmbiguousPath);
    } else if TrimSpace(components[0]) == "m" {
      components := components[1..];
    } else {
      result := result + DEFAULT_ROOT;
    }
    if |components| == 0 {
      return Err(EmptyPath);
    }
    r := ParseOnto(result, components);
    assert forall s: seq<Word32> :: [] + s == s;
  }
}

// parser/Parser.kt: the recursive-descent parser over an array of code
// points, with its stack of node buffers, its group numbering and the final
// pass that resolves named back references.

module Parser {
  import opened Utils
  import opened Numeric
  import opened Ast
  import opened Unicode
  import Optimizer

  // ---------------------------------------------------------------------------
  // Errors

  /** The `RegExpSyntaxError`s the parser raises, one per distinct message. */
  datatype SyntaxErrorKind =
    | DuplicateGroupName        // "Duplicate capturing group name"
    | UnknownGroupName          // "Named reference to non-existent group"
    | ExpectedCloseParen        // "Expected ')'"
    | ExpectedCloseBracket      // "Expected closing ']'"
    | InvalidRangeMember        // "Invalid char class range member"
    | RangeOutOfOrder           // "Character class range is out of order"
    | UnescapedChar             // "Unescaped ..."
    | InvalidQuantifier         // "Invalid quantifier"
    | QuantifierOutOfOrder      // "Quantifier range is out of order"
    | InvalidRepetition         // "Invalid repetition quantifier"
    | TrailingBackslash         // "RegExp cannot end with a backslash"
    | IncompleteUnicodeEscape   // "Incomplete unicode escape sequence"
    | UnicodeEscapeTooLarge     // "... greater than the max value of 0x10ffff"
    | ExpectedOpenBrace         // "Expected '{'"
    | UnknownUnicodeProperty    // "Unknown unicode property"
    | UnknownUnicodeValue       // "Unknown unicode value"
    | EscapeKInClass            // "Invalid escape \"\\k\" in character class"
    | ExpectedName              // "Expected valid name"
    | ExpectedDelimiter         // "Expected '<delimiter>'"
    | InvalidNameChar           // "Invalid character ... in name"

  /**
   * How a parse ends without a tree: a syntax error at a cursor position, an
   * internal exception, or the fuel bound of this model running out.
   */
  datatype ParseError =
    | SyntaxError(kind: SyntaxErrorKind, position: int)
    | Internal(crash: Crash)
    | OutOfFuel

  // ---------------------------------------------------------------------------
  // Code points and digits

  /** The next `|lit|` code points from `i` are `lit`. */
  predicate StartsWith(cps: seq<int>, i: int, lit: seq<int>)
  {
    0 <= i && i + |lit| <= |cps| && cps[i..i + |lit|] == lit
  }

  /** `charsThatRequireEscape` */
  predicate RequiresEscape(cp: int)
  {
    cp == '+' as int || cp == '*' as int || cp == '?' as int || cp == '(' as int || cp == ')' as int
    || cp == '[' as int || cp == '/' as int
  }

  /** `codePointToInt`: the value of `cp` as a digit of `base`, if it is one. */
  function CodePointToInt(cp: int, base: int): (r: Option<int>)
    ensures r.Some? ==> 0 <= r.value < base && r.value < 36
    ensures 0 <= base <= 10 ==> (r.Some? <==> '0' as int <= cp < '0' as int + base)
    ensures base == 16 ==> (r.Some? <==> IsHexDigit(cp))
  {
    if '0' as int <= cp <= '9' as int then
      (if cp - 0x30 < base then Some(cp - 0x30) else None)
    else if 'A' as int <= cp <= 'Z' as int then
      (if cp - 0x41 + 10 < base then Some(cp - 0x41 + 10) else None)
    else if 'a' as int <= cp <= 'z' as int then
      (if cp - 0x61 + 10 < base then Some(cp - 0x61 + 10) else None)
    else None
  }

  predicate IsHexDigit(cp: int)
  {
    '0' as int <= cp <= '9' as int || 'A' as int <= cp <= 'F' as int || 'a' as int <= cp <= 'f' as int
  }

  /**
   * The values of the digits of `base` from `i` on, at most `max` of them:
   * what `parseNumber`'s loop reads.
   */
  function DigitsAt(cps: seq<int>, i: nat, base: int, max: int): (r: seq<int>)
    ensures i <= |cps| ==> i + |r| <= |cps|
    ensures |r| <= if max >= 0 then max else 0
    decreases |cps| - i
  {
    if i >= |cps| || max <= 0 then []
    else match CodePointToInt(cps[i], base)
      case None => []
      case Some(d) => [d] + DigitsAt(cps, i + 1, base, max - 1)
  }

  /**
   * The run is exactly the longest one: each element is the value of the
   * code point at its place, and the run stops at a non-digit unless it
   * reached `max` or the end.
   */
  lemma {:induction false} DigitsAtDigits(cps: seq<int>, i: nat, base: int, max: int)
    ensures var r := DigitsAt(cps, i, base, max);
            && (forall j | 0 <= j < |r| :: i + j < |cps| && CodePointToInt(cps[i + j], base) == Some(r[j]))
            && (forall j | 0 <= j < |r| :: 0 <= r[j] < base)
            && (|r| < max && i + |r| < |cps| ==> CodePointToInt(cps[i + |r|], base).None?)
    decreases |cps| - i
  {
    if i < |cps| && max > 0 && CodePointToInt(cps[i], base).Some? {
      DigitsAtDigits(cps, i + 1, base, max - 1);
      var r := DigitsAt(cps, i, base, max);
      var rest := DigitsAt(cps, i + 1, base, max - 1);
      assert r == [r[0]] + rest;
      forall j | 1 <= j < |r|
        ensures i + j < |cps| && CodePointToInt(cps[i + j], base) == Some(r[j])
      {
        assert r[j] == rest[j - 1];
      }
    }
  }

  /** The run ends at the first non-digit. */
  lemma {:induction false} DigitsAtStops(cps: seq<int>, i: nat, base: int, max: int, k: nat)
    requires k <= |DigitsAt(cps, i, base, max)| && i + k < |cps|
    requires CodePointToInt(cps[i + k], base).None?
    ensures |DigitsAt(cps, i, base, max)| == k
    decreases k
  {
    if k > 0 {
      DigitsAtStops(cps, i + 1, base, max - 1, k - 1);
    }
  }

  /** A digit below `max` at the end of a prefix of the run extends it. */
  lemma DigitsAtContinues(cps: seq<int>, i: nat, base: int, max: int, k: nat, d: int)
    requires k <= |DigitsAt(cps, i, base, max)| && k < max && i + k < |cps|
    requires CodePointToInt(cps[i + k], base) == Some(d)
    ensures k < |DigitsAt(cps, i, base, max)| && DigitsAt(cps, i, base, max)[k] == d
  {
    var r := DigitsAt(cps, i, base, max);
    DigitsAtDigits(cps, i, base, max);
    assert k < |r| ==> CodePointToInt(cps[i + k], base) == Some(r[k]);
  }

  /**
   * The `value` of `parseNumber`'s loop after `digits`: each step is
   * `(value * base) or digit` in Kotlin `Int` arithmetic.
   */
  function Accumulate(digits: seq<int>, base: int): (v: int)
    ensures IsInt(v)
  {
    if digits == [] then 0
    else NextValue(Accumulate(digits[..|digits| - 1], base), base, digits[|digits| - 1])
  }

  /** `(value * base) or digit` on Kotlin `Int`s. */
  function NextValue(value: int, base: int, digit: int): (v: int)
    ensures IsInt(v)
  {
    Or32(ToInt(value * base), digit)
  }

  /** The positional value of `digits` in `base`. */
  function Positional(digits: seq<int>, base: int): int
  {
    if digits == [] then 0 else Positional(digits[..|digits| - 1], base) * base + digits[|digits| - 1]
  }

  /**
   * In bases 8 and 16 the bitwise-or accumulation is the positional value, as
   * long as that value fits a Kotlin `Int`.
   */
  lemma {:induction false} AccumulateIsPositional(digits: seq<int>, base: int)
    requires base == 8 || base == 16
    requires forall i | 0 <= i < |digits| :: 0 <= digits[i] < base
    requires 0 <= Positional(digits, base) < 0x8000_0000
    ensures Accumulate(digits, base) == Positional(digits, base)
  {
    if digits != [] {
      var prefix := digits[..|digits| - 1];
      PositionalNonNegative(prefix, base);
      AccumulateIsPositional(prefix, base);
      AccumulateStep(Positional(prefix, base), digits[|digits| - 1], base);
    }
  }

  /** One step of the loop on a value that stays below `2^31`. */
  lemma AccumulateStep(p: nat, d: int, base: int)
    requires base == 8 || base == 16
    requires 0 <= d < base && p * base + d < 0x8000_0000
    ensures Or32(ToInt(p * base), d) == p * base + d
  {
    var k := if base == 8 then 3 else 4;
    assert Pow2(2) == 4;
    assert Pow2(4) == 16;
    assert Pow2(k) == base;
    var x := p * base;
    assert 0 <= x < 0x8000_0000;
    assert ToInt(x) == x;
    assert x % 0x1_0000_0000 == x && d % 0x1_0000_0000 == d;
    OrBelowShift(p, d, k);
    assert OrNat(x, d) == x + d;
  }

  lemma {:induction false} PositionalNonNegative(digits: seq<int>, base: int)
    requires base >= 0
    requires forall i | 0 <= i < |digits| :: 0 <= digits[i]
    ensures Positional(digits, base) >= 0
  {
    if digits != [] {
      PositionalNonNegative(digits[..|digits| - 1], base);
    }
  }

  function Power(b: nat, k: nat): nat
  {
    if k == 0 then 1 else b * Power(b, k - 1)
  }

  lemma MulMonotone(x: int, y: int, c: nat)
    requires x <= y
    ensures x * c <= y * c
  {
    var e := y - x;
    assert y * c == x * c + e * c;
  }

  /** `k` digits of `base` have a positional value below `base^k`. */
  lemma {:induction false} PositionalBelowPower(digits: seq<int>, base: nat)
    requires forall i | 0 <= i < |digits| :: 0 <= digits[i] < base
    ensures 0 <= Positional(digits, base) < Power(base, |digits|)
  {
    if digits != [] {
      var prefix := digits[..|digits| - 1];
      PositionalBelowPower(prefix, base);
      var p := Positional(prefix, base);
      var d := digits[|digits| - 1];
      var q := Power(base, |prefix|);
      assert Positional(digits, base) == p * base + d;
      assert Power(base, |digits|) == base * q;
      DigitStepBelow(p, q, d, base);
    }
  }

  /** `p < q` and a digit `d < b` give `p b + d < q b`. */
  lemma DigitStepBelow(p: int, q: int, d: int, b: nat)
    requires 0 <= p < q && 0 <= d < b
    ensures 0 <= p * b + d < b * q
  {
    MulMonotone(p + 1, q, b);
    assert (p + 1) * b == p * b + b;
    assert q * b == b * q;
  }

  /**
   * Up to eight decimal digits accumulate to a value that is non-negative and
   * below `10^n`, so no 32-bit wrap-around happens in a `{n,m}` bound.
   */
  lemma {:induction false} DecimalAccumulateBounds(digits: seq<int>)
    requires |digits| <= 8
    requires forall i | 0 <= i < |digits| :: 0 <= digits[i] < 10
    ensures 0 <= Accumulate(digits, 10) < Power(10, |digits|)
  {
    if digits != [] {
      var prefix := digits[..|digits| - 1];
      var d := digits[|digits| - 1];
      DecimalAccumulateBounds(prefix);
      PowerMonotone(10, |digits|, 8);
      assert Power(10, 8) == 100_000_000;
      DecimalStep(Accumulate(prefix, 10), d, Power(10, |prefix|));
    }
  }

  /** One decimal step below `10^8` neither wraps nor leaves `[0, 10p)`. */
  lemma DecimalStep(v: int, d: int, p: int)
    requires 0 <= v < p && 10 * p <= 100_000_000 && 0 <= d < 10
    ensures 0 <= NextValue(v, 10, d) < 10 * p
  {
    var x := v * 10;
    assert 0 <= x <= 10 * p - 10;
    assert ToInt(x) == x;
    assert x % 0x1_0000_0000 == x && d % 0x1_0000_0000 == d;
    OrNatBounds(x, d);
  }

  /** In base 10 it is not: the digits of `12` accumulate to 10, since `10 or 2 == 10`. */
  lemma DecimalAccumulateDiffers()
    ensures Positional([1, 2], 10) == 12
    ensures Accumulate([1, 2], 10) == 10
  {
    assert [1, 2][..1] == [1];
    assert Accumulate([1], 10) == 1 by {
      assert [1][..0] == [];
    }
    assert OrNat(10, 2) == 10;
  }

  /**
   * Eight hex digits with the top bit set wrap around in 32 bits, so the `0x10ffff` check of
   * `\u{...}` sees a negative value: `FFFFFFFF` accumulates to -1.
   */
  lemma HexAccumulateWraps(ds: seq<int>)
    requires |ds| == 8 && forall i | 0 <= i < 8 :: ds[i] == 15
    ensures Accumulate(ds, 16) == -1
  {
    HexRun(ds, 7);
    AccumulateIsPositional(ds[..7], 16);
    HexLastStep(ds);
  }

  /** The values of runs of zero to seven `F` digits. */
  const HexOnes: seq<int> := [0, 0xF, 0xFF, 0xFFF, 0xFFFF, 0xF_FFFF, 0xFF_FFFF, 0xFFF_FFFF]

  lemma {:induction false} HexRun(ds: seq<int>, n: nat)
    requires n <= 7 && |ds| == 8 && forall i | 0 <= i < 8 :: ds[i] == 15
    ensures Positional(ds[..n], 16) == HexOnes[n]
  {
    if n > 0 {
      HexRun(ds, n - 1);
      assert ds[..n][..n - 1] == ds[..n - 1];
    }
  }

  /** The eighth `F` shifts a one into the sign bit. */
  lemma HexLastStep(ds: seq<int>)
    requires |ds| == 8 && ds[7] == 15 && Accumulate(ds[..7], 16) == 0xFFF_FFFF
    ensures Accumulate(ds, 16) == -1
  {
    WrapStep(0xFFF_FFFF);
  }

  lemma WrapStep(x: int)
    requires x == 0xFFF_FFFF
    ensures Or32(ToInt(x * 16), 15) == -1
  {
    assert ToInt(x * 16) == -16;
    OrBelowShift(x, 15, 4);
    assert Pow2(4) == 16;
    assert OrNat(-16 % 0x1_0000_0000, 15) == 0xFFFF_FFFF;
  }

  /** Accumulating one more digit of a run. */
  lemma AccumulatePrefix(ds: seq<int>, k: nat, base: int)
    requires k < |ds|
    ensures Accumulate(ds[..k + 1], base) == NextValue(Accumulate(ds[..k], base), base, ds[k])
  {
    assert ds[..k + 1][..k] == ds[..k];
  }

  /** A number read by `parseNumber`: its code points and its value. */
  datatype NumberInfo = NumberInfo(codePoints: seq<int>, value: int)

  // ---------------------------------------------------------------------------
  // Names and `\p{...}` class names

  /** A character `parseName` accepts: a word character, or `=` in a class name. */
  predicate IsNameChar(cp: int, isUnicodeClass: bool)
  {
    IsWordCodepoint(cp) || (isUnicodeClass && cp == '=' as int)
  }

  /** The first position from `i` on that holds `delimiter`, or the end. */
  function FindFrom(cps: seq<int>, i: nat, delimiter: int): (r: int)
    ensures r >= i && (i <= |cps| ==> r <= |cps|)
    ensures r < |cps| ==> cps[r] == delimiter
    decreases |cps| - i
  {
    if i >= |cps| || cps[i] == delimiter then i else FindFrom(cps, i + 1, delimiter)
  }

  /** No position `FindFrom` steps over holds the delimiter: it finds the first one. */
  lemma {:induction false} FindFromIsFirst(cps: seq<int>, i: nat, delimiter: int)
    ensures forall j | i <= j < FindFrom(cps, i, delimiter) :: 0 <= j < |cps| && cps[j] != delimiter
    decreases |cps| - i
  {
    if i < |cps| && cps[i] != delimiter {
      FindFromIsFirst(cps, i + 1, delimiter);
    }
  }

  /** The first position of `c` in `s`, or `|s|`. */
  function IndexOf(s: string, c: char): (r: nat)
    ensures r <= |s| && (r < |s| ==> s[r] == c)
    ensures forall j | 0 <= j < r :: s[j] != c
  {
    if s == [] then 0 else if s[0] == c then 0 else 1 + IndexOf(s[1..], c)
  }

  /**
   * `val (name, value) = text.split('=')` when `text` holds a `=`: the parts
   * before the first `=` and between the first and any second `=`.
   */
  function SplitName(text: string): (r: (string, string))
    requires '=' in text
    ensures r.0 + "=" + r.1 <= text
    ensures '=' !in r.0 && '=' !in r.1
  {
    var i := IndexOf(text, '=');
    var rest := text[i + 1..];
    var j := IndexOf(rest, '=');
    assert text[..i] + "=" + rest[..j] == text[..i + 1 + j];
    (text[..i], rest[..j])
  }

  /**
   * The class name the parser emits for `\p{text}`: `Value` or
   * `Property=Value`, both normalised through the alias tables, or the
   * error for an unknown property or value.
   */
  function ClassName(text: string, properties: seq<(string, string)>, values: seq<(string, string)>)
    : (r: Result<string, SyntaxErrorKind>)
    ensures '=' !in text ==> (r.Success? <==> Lookup(values, text).Some?)
    ensures '=' !in text && r.Success? ==> r.value == Lookup(values, text).value
    ensures '=' in text ==>
              (r.Success? <==> Lookup(properties, SplitName(text).0).Some? && Lookup(values, SplitName(text).1).Some?)
    ensures '=' in text && Lookup(properties, SplitName(text).0).None? ==> r == Failure(UnknownUnicodeProperty)
    ensures '=' in text && Lookup(properties, SplitName(text).0).Some? && Lookup(values, SplitName(text).1).None? ==>
              r == Failure(UnknownUnicodeValue)
    ensures '=' in text && r.Success? ==>
              r.value == Lookup(properties, SplitName(text).0).value + "=" + Lookup(values, SplitName(text).1).value
    ensures '=' !in text && r.Failure? ==> r.error == UnknownUnicodeValue
  {
    if '=' in text then
      var (name, value) := SplitName(text);
      var p := Lookup(properties, name);
      var v := Lookup(values, value);
      if p.None? then Failure(UnknownUnicodeProperty)
      else if v.None? then Failure(UnknownUnicodeValue)
      else Success(p.value + "=" + v.value)
    else
      var v := Lookup(values, text);
      if v.None? then Failure(UnknownUnicodeValue) else Success(v.value)
  }

  /** A name the tables map to itself. */
  predicate IsCanonical(table: seq<(string, string)>, name: string)
  {
    Lookup(table, name) == Some(name)
  }

  /**
   * With alias tables whose values are canonical, every class name the parser
   * emits is a canonical `Value` or a canonical `Property=Value`.
   */
  lemma ClassNameIsCanonical(text: string, properties: seq<(string, string)>, values: seq<(string, string)>)
    requires ValuesAreCanonical(properties) && ValuesAreCanonical(values)
    requires ClassName(text, properties, values).Success?
    ensures var name := ClassName(text, properties, values).value;
            (IsCanonical(values, name))
            || (exists p, v :: name == p + "=" + v && IsCanonical(properties, p) && IsCanonical(values, v))
  {
    if '=' in text {
      var (name, value) := SplitName(text);
      NormalizeIdempotent(properties, name);
      NormalizeIdempotent(values, value);
      var p := Lookup(properties, name).value;
      var v := Lookup(values, value).value;
      assert IsCanonical(properties, p) && IsCanonical(values, v);
    } else {
      NormalizeIdempotent(values, text);
    }
  }

  // ---------------------------------------------------------------------------
  // Group bookkeeping

  /** `map[key] = value` on a Kotlin `LinkedHashMap`: replace in place, or append. */
  function Put(m: seq<(int16, string)>, key: int16, value: string): (r: seq<(int16, string)>)
    ensures (key, value) in r
    ensures |r| == |m| || |r| == |m| + 1
  {
    if m == [] then [(key, value)]
    else if m[0].0 == key then [(key, value)] + m[1..]
    else [m[0]] + Put(m[1..], key, value)
  }

  /**
   * The `namedGroups` map after opening the capturing groups `openOrder`, in
   * order: group `i` (0-based) gets index `i + 1` as a Kotlin `Short`.
   */
  function NamedGroupsOf(openOrder: seq<Option<string>>): seq<(int16, string)>
  {
    if openOrder == [] then []
    else
      var prior := NamedGroupsOf(openOrder[..|openOrder| - 1]);
      var last := openOrder[|openOrder| - 1];
      if last.Some? then Put(prior, ToShort(|openOrder|), last.value) else prior
  }

  /** The `groupNames` set after opening the capturing groups `openOrder`. */
  function NamesOf(openOrder: seq<Option<string>>): set<string>
  {
    set i | 0 <= i < |openOrder| && openOrder[i].Some? :: openOrder[i].value
  }

  /** The entries for the named groups among `openOrder`, with their 1-based positions. */
  function Entries(openOrder: seq<Option<string>>): seq<(int16, string)>
    requires |openOrder| < SHORT_MAX
  {
    if openOrder == [] then []
    else
      var prior := Entries(openOrder[..|openOrder| - 1]);
      var last := openOrder[|openOrder| - 1];
      if last.Some? then prior + [(|openOrder| as int16, last.value)] else prior
  }

  /**
   * While fewer than 32767 groups are open, `namedGroups` holds exactly one
   * entry per named group, keyed by its position in opening order, in that
   * order.
   */
  lemma {:induction false} NamedGroupsInOrder(openOrder: seq<Option<string>>)
    requires |openOrder| < SHORT_MAX
    ensures NamedGroupsOf(openOrder) == Entries(openOrder)
    ensures forall e | e in Entries(openOrder) :: 1 <= e.0 <= |openOrder| && openOrder[e.0 - 1] == Some(e.1)
  {
    if openOrder != [] {
      var prior := openOrder[..|openOrder| - 1];
      NamedGroupsInOrder(prior);
      if openOrder[|openOrder| - 1].Some? {
        PutFresh(Entries(prior), ToShort(|openOrder|), openOrder[|openOrder| - 1].value);
      }
      forall e | e in Entries(openOrder)
        ensures 1 <= e.0 <= |openOrder| && openOrder[e.0 - 1] == Some(e.1)
      {
        if e in Entries(prior) {
          assert openOrder[e.0 - 1] == prior[e.0 - 1];
        }
      }
    }
  }

  /** A `Put` of a key not yet present appends. */
  lemma {:induction false} PutFresh(m: seq<(int16, string)>, key: int16, value: string)
    requires forall e | e in m :: e.0 < key
    ensures Put(m, key, value) == m + [(key, value)]
  {
    if m != [] {
      assert m[0] in m;
      forall e | e in m[1..] ensures e.0 < key {
        assert e in m;
      }
      PutFresh(m[1..], key, value);
      assert m == [m[0]] + m[1..];
    }
  }

  /** `namedGroups.entries.first { it.value == name }.key` */
  function FirstKeyOf(m: seq<(int16, string)>, name: string): (r: Option<int16>)
    ensures r.Some? ==> (r.value, name) in m
    ensures r.None? <==> forall e | e in m :: e.1 != name
  {
    if m == [] then None else if m[0].1 == name then Some(m[0].0) else FirstKeyOf(m[1..], name)
  }

  /** The names the `\\k<name>` references of a tree still wait for. */
  function Awaiting(n: ASTNode): set<string>
    decreases n, 1
  {
    match n
    case BackReferenceNode(_, Some(name)) => {name}
    case RootNode(_, _, ns) => AwaitingAll(ns)
    case GroupNode(_, ns) => AwaitingAll(ns)
    case NegateNode(c) => Awaiting(c)
    case CharacterClassNode(ns) => AwaitingAll(ns)
    case InvertedCharacterClassNode(ns) => AwaitingAll(ns)
    case ZeroOrOneNode(c, _) => Awaiting(c)
    case ZeroOrMoreNode(c, _) => Awaiting(c)
    case OneOrMoreNode(c, _) => Awaiting(c)
    case RepetitionNode(c, _, _, _) => Awaiting(c)
    case AlternationNode(l, r) => Awaiting(l) + Awaiting(r)
    case LookNode(_, ns) => AwaitingAll(ns)
    case _ => {}
  }

  function AwaitingAll(ns: seq<ASTNode>): set<string>
    decreases ns, 0
  {
    if ns == [] then {} else Awaiting(ns[0]) + AwaitingAll(ns[1..])
  }

  /** The names of `names` that `namedGroups` does not hold. */
  function Unknown(names: set<string>, m: seq<(int16, string)>): set<string>
  {
    set x | x in names && FirstKeyOf(m, x).None?
  }

  /**
   * The tree after the final pass: every reference awaiting a name that
   * `namedGroups` holds gets the index of the first group with that name, so
   * only names it lacks are still awaited, and a tree awaiting nothing is
   * unchanged.
   */
  function Resolve(n: ASTNode, m: seq<(int16, string)>): (r: ASTNode)
    ensures n.BackReferenceNode? && n.awaiting.Some? && FirstKeyOf(m, n.awaiting.value).Some? ==>
              r == BackReferenceNode(FirstKeyOf(m, n.awaiting.value).value, None)
    decreases n, 1
  {
    match n
    case BackReferenceNode(_, Some(name)) =>
      var key := FirstKeyOf(m, name);
      if key.Some? then BackReferenceNode(key.value, None) else n
    case RootNode(g, k, ns) => RootNode(g, k, ResolveAll(ns, m))
    case GroupNode(idx, ns) => GroupNode(idx, ResolveAll(ns, m))
    case NegateNode(c) => NegateNode(Resolve(c, m))
    case CharacterClassNode(ns) => CharacterClassNode(ResolveAll(ns, m))
    case InvertedCharacterClassNode(ns) => InvertedCharacterClassNode(ResolveAll(ns, m))
    case ZeroOrOneNode(c, lz) => ZeroOrOneNode(Resolve(c, m), lz)
    case ZeroOrMoreNode(c, lz) => ZeroOrMoreNode(Resolve(c, m), lz)
    case OneOrMoreNode(c, lz) => OneOrMoreNode(Resolve(c, m), lz)
    case RepetitionNode(c, lo, hi, lz) => RepetitionNode(Resolve(c, m), lo, hi, lz)
    case AlternationNode(l, r) => AlternationNode(Resolve(l, m), Resolve(r, m))
    case LookNode(kind, ns) => LookNode(kind, ResolveAll(ns, m))
    case _ => n
  }

  /** The final pass over a list of nodes, one by one. */
  function ResolveAll(ns: seq<ASTNode>, m: seq<(int16, string)>): (r: seq<ASTNode>)
    ensures |r| == |ns|
    ensures forall i | 0 <= i < |ns| && ns[i].BackReferenceNode? && ns[i].awaiting.Some?
                                     && FirstKeyOf(m, ns[i].awaiting.value).Some? ::
              r[i] == BackReferenceNode(FirstKeyOf(m, ns[i].awaiting.value).value, None)
    decreases ns, 0
  {
    if ns == [] then [] else [Resolve(ns[0], m)] + ResolveAll(ns[1..], m)
  }

  /** The names `namedGroups` lacks of a union are those of either part. */
  lemma UnknownUnion(a: set<string>, b: set<string>, m: seq<(int16, string)>)
    ensures Unknown(a + b, m) == Unknown(a, m) + Unknown(b, m)
  {
  }

  /**
   * After the final pass, a tree awaits exactly the names of its references
   * that `namedGroups` lacks; a tree awaiting nothing comes out unchanged.
   */
  lemma {:induction false} ResolveAwaiting(n: ASTNode, m: seq<(int16, string)>)
    ensures Awaiting(Resolve(n, m)) == Unknown(Awaiting(n), m)
    ensures Awaiting(n) == {} ==> Resolve(n, m) == n
    decreases n, 2
  {
    if n.NegateNode? || IsQuantifier(n) {
      UnaryResolveAwaiting(n, m);
    } else if n.AlternationNode? {
      ResolveAwaiting(n.lhs, m);
      ResolveAwaiting(n.rhs, m);
      UnknownUnion(Awaiting(n.lhs), Awaiting(n.rhs), m);
    } else if HasChildList(n) {
      ListResolveAwaiting(n, m);
    } else if n.CharacterClassNode? || n.InvertedCharacterClassNode? {
      ClassResolveAwaiting(n, m);
    }
  }

  lemma {:induction false} UnaryResolveAwaiting(n: ASTNode, m: seq<(int16, string)>)
    requires n.NegateNode? || IsQuantifier(n)
    ensures Awaiting(Resolve(n, m)) == Unknown(Awaiting(n), m)
    ensures Awaiting(n) == {} ==> Resolve(n, m) == n
    decreases n, 1
  {
    var r := Resolve(n, m);
    assert r.node == Resolve(n.node, m) && Awaiting(r) == Awaiting(r.node);
    assert Awaiting(n) == Awaiting(n.node);
    ResolveAwaiting(n.node, m);
  }

  lemma {:induction false} ListResolveAwaiting(n: ASTNode, m: seq<(int16, string)>)
    requires HasChildList(n)
    ensures Awaiting(Resolve(n, m)) == Unknown(Awaiting(n), m)
    ensures Awaiting(n) == {} ==> Resolve(n, m) == n
    decreases n, 1
  {
    ResolveAllAwaiting(n.nodes, m);
  }

  lemma {:induction false} ClassResolveAwaiting(n: ASTNode, m: seq<(int16, string)>)
    requires n.CharacterClassNode? || n.InvertedCharacterClassNode?
    ensures Awaiting(Resolve(n, m)) == Unknown(Awaiting(n), m)
    ensures Awaiting(n) == {} ==> Resolve(n, m) == n
    decreases n, 1
  {
    ResolveAllAwaiting(n.nodes, m);
  }

  lemma {:induction false} ResolveAllAwaiting(ns: seq<ASTNode>, m: seq<(int16, string)>)
    ensures AwaitingAll(ResolveAll(ns, m)) == Unknown(AwaitingAll(ns), m)
    ensures AwaitingAll(ns) == {} ==> ResolveAll(ns, m) == ns
    decreases ns, 0
  {
    if ns != [] {
      ResolveAwaiting(ns[0], m);
      ResolveAllAwaiting(ns[1..], m);
      UnknownUnion(Awaiting(ns[0]), AwaitingAll(ns[1..]), m);
      var r := ResolveAll(ns, m);
      assert r[1..] == ResolveAll(ns[1..], m);
      if AwaitingAll(ns) == {} {
        assert ns == [ns[0]] + ns[1..];
      }
    }
  }

  /** The single-character escapes: `\0 \t \n \v \r \s \S \b \B \d \D \w \W`. */
  function SimpleEscape(cp: int, inCharClass: bool): Option<ASTNode>
  {
    if cp == '0' as int then Some(CodePointNode(0))
    else if cp == 't' as int then Some(CodePointNode('\t' as int))
    else if cp == 'n' as int then Some(CodePointNode('\n' as int))
    else if cp == 'v' as int then Some(CodePointNode(0xb))
    else if cp == 'r' as int then Some(CodePointNode('\r' as int))
    else if cp == 's' as int then Some(WhitespaceNode)
    else if cp == 'S' as int then Some(NegateNode(WhitespaceNode))
    else if cp == 'b' as int then Some(if inCharClass then CodePointNode(8) else WordBoundaryNode)
    else if cp == 'B' as int then Some(NegateNode(WordBoundaryNode))
    else if cp == 'd' as int then Some(DigitNode)
    else if cp == 'D' as int then Some(NegateNode(DigitNode))
    else if cp == 'w' as int then Some(WordNode)
    else if cp == 'W' as int then Some(NegateNode(WordNode))
    else None
  }

  /** The kinds of group `(` can open, by the prefix `parseNode` consumes after it. */
  datatype GroupPrefix = NonCapturing | Look(kind: LookKind) | Named | Plain

  /** Which prefix the chain of `consumeIf`s picks at `i`, the first match winning. */
  function PrefixAt(cps: seq<int>, i: int): GroupPrefix
  {
    if StartsWith(cps, i, ['?' as int, ':' as int]) then NonCapturing
    else if StartsWith(cps, i, ['?' as int, '=' as int]) then Look(PositiveLookahead)
    else if StartsWith(cps, i, ['?' as int, '!' as int]) then Look(NegativeLookahead)
    else if StartsWith(cps, i, ['?' as int, '<' as int, '=' as int]) then Look(PositiveLookbehind)
    else if StartsWith(cps, i, ['?' as int, '<' as int, '!' as int]) then Look(NegativeLookbehind)
    else if StartsWith(cps, i, ['?' as int, '<' as int]) then Named
    else Plain
  }

  /** The length of the prefix `PrefixAt` picks. */
  function PrefixLength(p: GroupPrefix): nat
  {
    match p
    case NonCapturing => 2
    case Look(kind) => if kind == PositiveLookbehind || kind == NegativeLookbehind then 3 else 2
    case Named => 2
    case Plain => 0
  }

  /**
   * The node a closed group becomes: lookahead bodies get a trailing
   * `MatchNode`; lookbehind bodies are reversed, node by node, first.
   */
  function GroupOf(p: GroupPrefix, index: Option<int16>, body: seq<ASTNode>): (r: ASTNode)
    ensures p.Look? ==> r.LookNode? && r.kind == p.kind && |r.nodes| >= 1 && r.nodes[|r.nodes| - 1] == MatchNode
    ensures !p.Look? ==> r.GroupNode? && r.index == (if p == NonCapturing then None else index)
  {
    match p
    case NonCapturing => GroupNode(None, body)
    case Look(kind) =>
      if kind == PositiveLookbehind || kind == NegativeLookbehind then LookNode(kind, ReverseChildren(body) + [MatchNode])
      else LookNode(kind, body + [MatchNode])
    case _ => GroupNode(index, body)
  }

  /** What a side of `|` becomes: a lone group as it is, anything else wrapped in a non-capturing group. */
  function AlternativeOf(ns: seq<ASTNode>): (r: ASTNode)
    ensures r.GroupNode? && (r.nodes == ns || [r] == ns)
  {
    if |ns| == 1 && ns[0].GroupNode? then ns[0] else GroupNode(None, ns)
  }

  /**
   * The name `parseName` reads from `start` up to `delimiter` (outside a
   * class name), when it reads one.
   */
  function ScannedName(cps: seq<int>, start: nat, delimiter: int): (r: Option<string>)
    ensures r.Some? ==> |r.value| == FindFrom(cps, start, delimiter) - start > 0
  {
    var end := FindFrom(cps, start, delimiter);
    if start < end < |cps| && forall j | start <= j < end :: IsNameChar(cps[j], false)
    then Some(seq(end - start, j requires 0 <= j < end - start => cps[start + j] as char))
    else None
  }

  /** A name read code point by code point up to the delimiter is the scanned name. */
  lemma ScannedNameIs(cps: seq<int>, start: nat, delimiter: int, name: string)
    requires |name| == FindFrom(cps, start, delimiter) - start > 0 && start + |name| < |cps|
    requires forall j | start <= j < start + |name| :: IsNameChar(cps[j], false)
    requires forall j | 0 <= j < |name| :: name[j] as int == cps[start + j]
    ensures ScannedName(cps, start, delimiter) == Some(name)
  {
    assert ScannedName(cps, start, delimiter).Some?;
    var scanned := ScannedName(cps, start, delimiter).value;
    forall j | 0 <= j < |name| ensures scanned[j] == name[j] {
      assert scanned[j] as int == cps[start + j];
    }
    assert scanned == name;
  }

  // ---------------------------------------------------------------------------
  // Names, escapes, classes and `{...}` bounds as functions of the text

  /** What a parser reads besides its code points: the unicode flag and the two alias tables. */
  datatype Config = Config(unicode: bool, properties: seq<(string, string)>, values: seq<(string, string)>)

  /** What reading one construct gives: its node or its error, and where the cursor is left. */
  datatype Scan = Scan(result: Result<ASTNode, ParseError>, next: int)

  /** A syntax error raised with the cursor at `position`. */
  function Raise(kind: SyntaxErrorKind, position: int): Scan
  {
    Scan(Failure(SyntaxError(kind, position)), position)
  }

  /** The names a node adds to `unresolvedBackRefs`: that of a `\k<name>` reference, none otherwise. */
  function RefsOf(n: ASTNode): seq<string>
  {
    if n.BackReferenceNode? && n.awaiting.Some? then [n.awaiting.value] else []
  }

  /** `s` added the code point `cp` and left the cursor at `next`. */
  predicate Yields(s: Scan, cp: int, next: int)
  {
    s.result.Success? && s.result.value.CodePointNode? && s.result.value.codePoint == cp && s.next == next
  }

  /** The first position from `i` on, below `end`, that `parseName` refuses; `end` when there is none. */
  function FirstNonName(cps: seq<int>, i: nat, end: nat, isUnicodeClass: bool): (r: nat)
    requires i <= end <= |cps|
    ensures i <= r <= end && (r < end ==> !IsNameChar(cps[r], isUnicodeClass))
    decreases end - i
  {
    if i == end || !IsNameChar(cps[i], isUnicodeClass) then i else FirstNonName(cps, i + 1, end, isUnicodeClass)
  }

  /** Every code point `FirstNonName` steps over is one `parseName` accepts. */
  lemma {:induction false} FirstNonNameSkipsNames(cps: seq<int>, i: nat, end: nat, isUnicodeClass: bool)
    requires i <= end <= |cps|
    ensures forall j | i <= j < FirstNonName(cps, i, end, isUnicodeClass) :: IsNameChar(cps[j], isUnicodeClass)
    decreases end - i
  {
    if i < end && IsNameChar(cps[i], isUnicodeClass) {
      FirstNonNameSkipsNames(cps, i + 1, end, isUnicodeClass);
    }
  }

  /**
   * What `parseName` reads from `start`: the name up to `delimiter`, or the
   * first of its three errors at the cursor where it is raised (an empty
   * name, a missing delimiter, the first character that is not allowed).
   */
  function NameAt(cps: seq<int>, start: nat, delimiter: int, isUnicodeClass: bool): (r: Result<string, ParseError>)
    ensures var end := FindFrom(cps, start, delimiter);
            && (end == start ==> r == Failure(SyntaxError(ExpectedName, start)))
            && (start < end && end >= |cps| ==> r == Failure(SyntaxError(ExpectedDelimiter, end)))
            && (r.Success? <==> start < end < |cps| && forall j | start <= j < end :: IsNameChar(cps[j], isUnicodeClass))
    ensures r.Success? ==> && |r.value| == FindFrom(cps, start, delimiter) - start > 0
                           && forall j | 0 <= j < |r.value| :: r.value[j] as int == cps[start + j]
    ensures r.Failure? && r.error.SyntaxError? && r.error.kind == InvalidNameChar ==>
              && start <= r.error.position < FindFrom(cps, start, delimiter)
              && !IsNameChar(cps[r.error.position], isUnicodeClass)
              && forall j | start <= j < r.error.position :: IsNameChar(cps[j], isUnicodeClass)
    ensures r.Failure? ==> r.error.SyntaxError?
    ensures !isUnicodeClass ==> match ScannedName(cps, start, delimiter)
                                case Some(name) => r == Success(name)
                                case None => r.Failure?
  {
    var end := FindFrom(cps, start, delimiter);
    if end == start then Failure(SyntaxError(ExpectedName, start))
    else if end >= |cps| then Failure(SyntaxError(ExpectedDelimiter, end))
    else
      var bad := FirstNonName(cps, start, end, isUnicodeClass);
      FirstNonNameSkipsNames(cps, start, end, isUnicodeClass);
      if bad < end then Failure(SyntaxError(InvalidNameChar, bad))
      else
        var name := seq(end - start, j requires 0 <= j < end - start => cps[start + j] as char);
        assert !isUnicodeClass ==> ScannedName(cps, start, delimiter) == Some(name);
        Success(name)
  }

  /**
   * `incomplete()` of `parseUnicodeEscapeSequence`: an error at `position`
   * in unicode mode, otherwise a literal `u` with the cursor back at `start`.
   */
  function IncompleteAt(position: int, start: int, unicode: bool): (s: Scan)
    ensures unicode <==> s.result.Failure?
    ensures unicode ==> s == Raise(IncompleteUnicodeEscape, position)
    ensures !unicode ==> s.result == Success(CodePointNode('u' as int)) && s.next == start
  {
    if unicode then Raise(IncompleteUnicodeEscape, position) else Scan(Success(CodePointNode('u' as int)), start)
  }

  /**
   * `\u{H...}` with `start` just after the `u`: any number of hex digits,
   * checked against 0x10FFFF after the 32-bit accumulation, then a `}`.
   */
  function BracedEscapeAt(cps: seq<int>, start: nat, unicode: bool): (s: Scan)
    requires start < |cps|
    ensures var ds := DigitsAt(cps, start + 1, 16, INT_MAX);
            var close := start + 1 + |ds|;
            && (ds == [] ==> s == IncompleteAt(start + 1, start, unicode))
            && (ds != [] && Accumulate(ds, 16) > 0x10FFFF ==> s == Raise(UnicodeEscapeTooLarge, start + 1))
            && (ds != [] && Accumulate(ds, 16) <= 0x10FFFF ==>
                  if StartsWith(cps, close, ['}' as int]) then s == Scan(Success(CodePointNode(Accumulate(ds, 16))), close + 1)
                  else s == IncompleteAt(close, start, unicode))
  {
    var ds := DigitsAt(cps, start + 1, 16, INT_MAX);
    var close := start + 1 + |ds|;
    if ds == [] then IncompleteAt(start + 1, start, unicode)
    else if Accumulate(ds, 16) > 0x10FFFF then Raise(UnicodeEscapeTooLarge, start + 1)
    else if close < |cps| && cps[close] == '}' as int then Scan(Success(CodePointNode(Accumulate(ds, 16))), close + 1)
    else IncompleteAt(close, start, unicode)
  }

  /** `\uHHHH` with `start` on the first digit: exactly four hex digits, read positionally. */
  function FourDigitEscapeAt(cps: seq<int>, start: nat, unicode: bool): (s: Scan)
    ensures var ds := DigitsAt(cps, start, 16, 4);
            && (|ds| < 4 ==> s == IncompleteAt(start, start, unicode))
            && (|ds| == 4 ==> Yields(s, Positional(ds, 16), start + 4))
  {
    var ds := DigitsAt(cps, start, 16, 4);
    if |ds| < 4 then IncompleteAt(start, start, unicode)
    else
      ShortRunIsPositional(cps, start, 16, 4);
      Scan(Success(CodePointNode(Accumulate(ds, 16))), start + 4)
  }

  /**
   * `parseUnicodeEscapeSequence` with the `u` at `i`: a literal `u` or an
   * error when nothing follows, then the braced or the four-digit form.
   */
  function UnicodeEscapeAt(cps: seq<int>, i: nat, unicode: bool): (s: Scan)
    requires i < |cps|
    ensures s.result.Success? ==> && s.result.value.CodePointNode? && s.result.value.codePoint <= 0x10FFFF
                                  && i < s.next <= |cps|
    ensures s.result.Failure? ==> && s.result.error.SyntaxError?
                                  && (s.result.error.kind == UnicodeEscapeTooLarge
                                      || (unicode && s.result.error.kind == IncompleteUnicodeEscape))
    ensures i + 1 == |cps| ==> s == IncompleteAt(i + 1, i + 1, unicode)
    ensures i + 1 < |cps| ==>
              s == if cps[i + 1] == '{' as int then BracedEscapeAt(cps, i + 1, unicode) else FourDigitEscapeAt(cps, i + 1, unicode)
  {
    var start := i + 1;
    if start >= |cps| then IncompleteAt(start, start, unicode)
    else if cps[start] == '{' as int then BracedEscapeAt(cps, start, unicode)
    else
      assert |DigitsAt(cps, start, 16, 4)| == 4 ==> 0 <= Positional(DigitsAt(cps, start, 16, 4), 16) < 0x10000 by {
        if |DigitsAt(cps, start, 16, 4)| == 4 {
          DigitsAtDigits(cps, start, 16, 4);
          PositionalBelowPower(DigitsAt(cps, start, 16, 4), 16);
          assert Power(16, 4) == 0x10000;
        }
      }
      FourDigitEscapeAt(cps, start, unicode)
  }

  /**
   * `\1` to `\9` with the digit at `i`: in a class an octal escape of up to
   * three digits (the digit itself when it is not octal); elsewhere a
   * numbered back reference of up to three decimal digits.
   */
  function DigitEscapeAt(cps: seq<int>, i: nat, inCharClass: bool): (s: Scan)
    requires IsCodePoints(cps) && i < |cps| && '1' as int <= cps[i] <= '9' as int
    ensures s.result.Success? && i < s.next <= |cps|
    ensures var octal := DigitsAt(cps, i, 8, 3);
            inCharClass ==>
              if octal == [] then Yields(s, cps[i], i + 1) else Yields(s, Positional(octal, 8), i + |octal|)
    ensures var decimal := DigitsAt(cps, i, 10, 3);
            !inCharClass ==>
              && 0 <= Accumulate(decimal, 10) < 1000
              && s == Scan(Success(BackReferenceNode(Accumulate(decimal, 10), None)), i + |decimal|)
  {
    if inCharClass then
      var octal := DigitsAt(cps, i, 8, 3);
      if octal == [] then Scan(Success(CodePointNode(cps[i])), i + 1)
      else
        ShortRunIsPositional(cps, i, 8, 3);
        Scan(Success(CodePointNode(Accumulate(octal, 8))), i + |octal|)
    else
      var decimal := DigitsAt(cps, i, 10, 3);
      DigitsAtDigits(cps, i, 10, 3);
      DecimalRunBounds(cps, i, 3);
      assert Power(10, 3) == 1000 by {
        assert Power(10, 2) == 100 by { assert Power(10, 1) == 10; }
      }
      Scan(Success(BackReferenceNode(ToShort(Accumulate(decimal, 10)), None)), i + |decimal|)
  }

  /** `\xHH` with the `x` at `i`: two hex digits, or a literal `x` when they do not follow. */
  function HexEscapeAt(cps: seq<int>, i: nat): (s: Scan)
    requires i < |cps|
    ensures var ds := DigitsAt(cps, i + 1, 16, 2);
            && (|ds| == 2 ==> Yields(s, Positional(ds, 16), i + 3))
            && (|ds| < 2 ==> Yields(s, 'x' as int, i + 1))
  {
    var ds := DigitsAt(cps, i + 1, 16, 2);
    if |ds| == 2 then
      ShortRunIsPositional(cps, i + 1, 16, 2);
      Scan(Success(CodePointNode(Accumulate(ds, 16))), i + 3)
    else Scan(Success(CodePointNode('x' as int)), i + 1)
  }

  /**
   * `\p{text}` or `\P{text}` with the `p` at `i`: the class `ClassName`
   * makes of the braced name, negated for `\P`; a missing `{`, a bad name
   * and an unknown property or value are errors.
   */
  function PropertyAt(cps: seq<int>, i: nat, properties: seq<(string, string)>, values: seq<(string, string)>): (s: Scan)
    requires i < |cps|
    ensures !StartsWith(cps, i + 1, ['{' as int]) ==> s == Raise(ExpectedOpenBrace, i + 1)
    ensures StartsWith(cps, i + 1, ['{' as int]) ==> s == PropertyNameAt(cps, i + 2, cps[i] == 'P' as int, properties, values)
  {
    if !(i + 1 < |cps| && cps[i + 1] == '{' as int) then Raise(ExpectedOpenBrace, i + 1)
    else PropertyNameAt(cps, i + 2, cps[i] == 'P' as int, properties, values)
  }

  /**
   * The name of `\p{name}` starting at `start`, after the `{`: a bad name is
   * an error; otherwise the cursor steps over the `}` and the class is the
   * one `ClassName` makes of the name, negated for `\P`, or an error there
   * for an unknown property or value.
   */
  function PropertyNameAt(cps: seq<int>, start: nat, negate: bool, properties: seq<(string, string)>,
                          values: seq<(string, string)>): (s: Scan)
    ensures NameAt(cps, start, '}' as int, true).Failure? ==> s.result == Failure(NameAt(cps, start, '}' as int, true).error)
    ensures NameAt(cps, start, '}' as int, true).Success? ==>
              var text := NameAt(cps, start, '}' as int, true).value;
              var name := ClassName(text, properties, values);
              && cps[start + |text|] == '}' as int
              && (name.Failure? ==> s == Raise(name.error, start + |text| + 1))
              && (name.Success? ==>
                    s == Scan(Success(if negate then NegateNode(UnicodeClassNode(name.value)) else UnicodeClassNode(name.value)),
                              start + |text| + 1))
  {
    match NameAt(cps, start, '}' as int, true)
    case Failure(e) => Scan(Failure(e), start)
    case Success(text) =>
      var next := start + |text| + 1;
      match ClassName(text, properties, values)
      case Failure(kind) => Raise(kind, next)
      case Success(name) => Scan(Success(if negate then NegateNode(UnicodeClassNode(name)) else UnicodeClassNode(name)), next)
  }

  /**
   * `\k` outside a class with the `k` at `i`: a reference awaiting the name
   * between `<` and `>`, or a literal `k` when no `<` follows.
   */
  function NamedReferenceAt(cps: seq<int>, i: nat): (s: Scan)
    ensures !StartsWith(cps, i + 1, ['<' as int]) ==> s == Scan(Success(CodePointNode('k' as int)), i + 1)
    ensures StartsWith(cps, i + 1, ['<' as int]) ==> s == ReferenceNameAt(cps, i + 2)
  {
    if !(i + 1 < |cps| && cps[i + 1] == '<' as int) then Scan(Success(CodePointNode('k' as int)), i + 1)
    else ReferenceNameAt(cps, i + 2)
  }

  /**
   * The name of `\k<name>` starting at `start`, after the `<`: the scanned
   * name awaits its group, the cursor after the `>`; a bad name is the
   * error `parseName` raises.
   */
  function ReferenceNameAt(cps: seq<int>, start: nat): (s: Scan)
    ensures match ScannedName(cps, start, '>' as int)
            case Some(name) => s == Scan(Success(BackReferenceNode(SHORT_MIN, Some(name))), start + |name| + 1)
                               && cps[s.next - 1] == '>' as int
            case None => s.result == Failure(NameAt(cps, start, '>' as int, false).error)
  {
    match NameAt(cps, start, '>' as int, false)
    case Failure(e) => Scan(Failure(e), start)
    case Success(name) => Scan(Success(BackReferenceNode(SHORT_MIN, Some(name))), start + |name| + 1)
  }

  /**
   * The escapes that are not one fixed node, with the code point after the
   * backslash at `i`: digits, `u`, `x`, `p`/`P`, `k`, and an identity
   * escape of any other code point.
   */
  function OtherEscapeAt(cps: seq<int>, i: nat, inCharClass: bool, config: Config): (s: Scan)
    requires IsCodePoints(cps) && i < |cps|
    ensures var cp := cps[i];
            && ('1' as int <= cp <= '9' as int ==> s == DigitEscapeAt(cps, i, inCharClass))
            && (cp == 'u' as int ==> s == UnicodeEscapeAt(cps, i, config.unicode))
            && (cp == 'x' as int ==> s == HexEscapeAt(cps, i))
            && (cp == 'p' as int || cp == 'P' as int ==> s == PropertyAt(cps, i, config.properties, config.values))
            && (cp == 'k' as int ==> s == if inCharClass then Raise(EscapeKInClass, i) else NamedReferenceAt(cps, i))
            && (!('1' as int <= cp <= '9' as int) && cp !in ['u' as int, 'x' as int, 'p' as int, 'P' as int, 'k' as int] ==>
                  s == Scan(Success(CodePointNode(cp)), i + 1))
  {
    var cp := cps[i];
    if '1' as int <= cp <= '9' as int then DigitEscapeAt(cps, i, inCharClass)
    else if cp == 'u' as int then UnicodeEscapeAt(cps, i, config.unicode)
    else if cp == 'x' as int then HexEscapeAt(cps, i)
    else if cp == 'p' as int || cp == 'P' as int then PropertyAt(cps, i, config.properties, config.values)
    else if cp == 'k' as int then (if inCharClass then Raise(EscapeKInClass, i) else NamedReferenceAt(cps, i))
    else Scan(Success(CodePointNode(cp)), i + 1)
  }

  /**
   * `parseEscape` with the code point after the backslash at `i`: an error
   * at the end of the input, a fixed escape, or one of the others. In a
   * class every escape that succeeds is a class member.
   */
  function EscapeAt(cps: seq<int>, i: nat, inCharClass: bool, config: Config): (s: Scan)
    requires IsCodePoints(cps)
    ensures i >= |cps| ==> s == Raise(TrailingBackslash, i)
    ensures i < |cps| && SimpleEscape(cps[i], inCharClass).Some? ==>
              s == Scan(Success(SimpleEscape(cps[i], inCharClass).value), i + 1)
    ensures i < |cps| && SimpleEscape(cps[i], inCharClass).None? ==> s == OtherEscapeAt(cps, i, inCharClass, config)
    ensures s.result.Success? ==> i < s.next <= |cps|
    ensures s.result.Success? && inCharClass ==> ClassMember(s.result.value) && RefsOf(s.result.value) == []
    ensures s.result.Success? && RefsOf(s.result.value) != [] ==>
              && !inCharClass && i < |cps| && cps[i] == 'k' as int && ScannedName(cps, i + 2, '>' as int).Some?
              && s.result.value == BackReferenceNode(SHORT_MIN, Some(ScannedName(cps, i + 2, '>' as int).value))
  {
    if i >= |cps| then Raise(TrailingBackslash, i)
    else match SimpleEscape(cps[i], inCharClass)
      case Some(n) => Scan(Success(n), i + 1)
      case None => OtherEscapeAt(cps, i, inCharClass, config)
  }

  /** A one-code-point literal is there exactly when the code point is. */
  lemma StartsWithOne(cps: seq<int>, i: int, x: int)
    ensures StartsWith(cps, i, [x]) <==> 0 <= i < |cps| && cps[i] == x
  {
    if 0 <= i < |cps| && cps[i] == x {
      assert cps[i..i + 1] == [x];
    }
  }

  /** A `-` at `j` that starts a range: it is not followed by `]`. */
  predicate RangeDashAt(cps: seq<int>, j: int)
  {
    0 <= j < |cps| && cps[j] == '-' as int && !(j + 1 < |cps| && cps[j + 1] == ']' as int)
  }

  /** The code points a class member stands for, when it is a code point or a range. */
  predicate Covers(n: ASTNode, cp: int)
  {
    (n.CodePointNode? && n.codePoint == cp) || (n.CodePointRangeNode? && n.start <= cp <= n.end)
  }

  /**
   * The class member `start-end`, the cursor at `next`: out of order is an
   * error; otherwise a member standing for exactly the code points from
   * `start` to `end`, a single code point when they are equal.
   */
  function RangeAt(start: int32, end: int32, next: int): (s: Scan)
    ensures start > end ==> s == Raise(RangeOutOfOrder, next)
    ensures start <= end ==> && s.result.Success? && s.next == next && ClassMember(s.result.value)
                             && (s.result.value.CodePointNode? <==> start == end)
                             && forall cp :: Covers(s.result.value, cp) <==> start <= cp <= end
  {
    if start > end then Raise(RangeOutOfOrder, next)
    else if start == end then Scan(Success(CodePointNode(start)), next)
    else Scan(Success(CodePointRangeNode(start, end)), next)
  }

  /**
   * The end of a range whose start is `start`, the `-` at `j`: a plain code
   * point or an escape, which must yield a code point.
   */
  function RangeEndAt(cps: seq<int>, j: nat, start: int32, config: Config): (s: Scan)
    requires IsCodePoints(cps) && RangeDashAt(cps, j)
    ensures j + 1 == |cps| ==> s.result == Failure(Internal(IndexOutOfBounds))
    ensures j + 1 < |cps| && cps[j + 1] != '\\' as int ==> s == RangeAt(start, cps[j + 1], j + 2)
    ensures j + 1 < |cps| && cps[j + 1] == '\\' as int ==>
              var e := EscapeAt(cps, j + 2, true, config);
              && (e.result.Failure? ==> s == e)
              && (e.result.Success? && !e.result.value.CodePointNode? ==> s == Raise(InvalidRangeMember, e.next))
              && (e.result.Success? && e.result.value.CodePointNode? ==> s == RangeAt(start, e.result.value.codePoint, e.next))
    ensures s.result.Success? ==> j < s.next <= |cps| && ClassMember(s.result.value) && RefsOf(s.result.value) == []
  {
    var k := j + 1;
    if k >= |cps| then Scan(Failure(Internal(IndexOutOfBounds)), k)
    else if cps[k] == '\\' as int then
      var e := EscapeAt(cps, k + 1, true, config);
      match e.result
      case Failure(_) => e
      case Success(n) => if n.CodePointNode? then RangeAt(start, n.codePoint, e.next) else Raise(InvalidRangeMember, e.next)
    else RangeAt(start, cps[k], k + 1)
  }

  /**
   * One member of a class at `i`: an escape, a code point, or a range of
   * two of them; an escape that is not a code point cannot start a range.
   */
  function ClassMemberAt(cps: seq<int>, i: nat, config: Config): (s: Scan)
    requires IsCodePoints(cps) && i < |cps|
    ensures cps[i] != '\\' as int && !RangeDashAt(cps, i + 1) ==> s == Scan(Success(CodePointNode(cps[i])), i + 1)
    ensures cps[i] != '\\' as int && RangeDashAt(cps, i + 1) ==> s == RangeEndAt(cps, i + 1, cps[i], config)
    ensures cps[i] == '\\' as int ==>
              var e := EscapeAt(cps, i + 1, true, config);
              && (e.result.Failure? || !RangeDashAt(cps, e.next) ==> s == e)
              && (e.result.Success? && RangeDashAt(cps, e.next) && !e.result.value.CodePointNode? ==>
                    s == Raise(InvalidRangeMember, e.next))
              && (e.result.Success? && RangeDashAt(cps, e.next) && e.result.value.CodePointNode? ==>
                    s == RangeEndAt(cps, e.next, e.result.value.codePoint, config))
    ensures s.result.Success? ==> i < s.next <= |cps| && ClassMember(s.result.value) && RefsOf(s.result.value) == []
  {
    if cps[i] == '\\' as int then
      var e := EscapeAt(cps, i + 1, true, config);
      match e.result
      case Failure(_) => e
      case Success(n) =>
        if !RangeDashAt(cps, e.next) then e
        else if !n.CodePointNode? then Raise(InvalidRangeMember, e.next)
        else RangeEndAt(cps, e.next, n.codePoint, config)
    else if RangeDashAt(cps, i + 1) then RangeEndAt(cps, i + 1, cps[i], config)
    else Scan(Success(CodePointNode(cps[i])), i + 1)
  }

  /**
   * The members of a class from `i` up to a `]` or the end, and where they
   * stop; the first member that fails fails them all.
   */
  function ClassMembersAt(cps: seq<int>, i: nat, config: Config): (r: Result<(seq<ASTNode>, nat), ParseError>)
    requires IsCodePoints(cps)
    ensures r.Success? ==> && i <= r.value.1 && (i <= |cps| ==> r.value.1 <= |cps|)
                           && (r.value.1 < |cps| ==> cps[r.value.1] == ']' as int)
                           && forall k | 0 <= k < |r.value.0| :: ClassMember(r.value.0[k])
    decreases |cps| - i, 1
  {
    if i >= |cps| || cps[i] == ']' as int then Success(([], i)) else MembersFrom(cps, i, config)
  }

  /** The member at `i`, which is neither the end nor a `]`, then the members after it. */
  function MembersFrom(cps: seq<int>, i: nat, config: Config): (r: Result<(seq<ASTNode>, nat), ParseError>)
    requires IsCodePoints(cps) && i < |cps|
    ensures r.Success? ==> && i < r.value.1 <= |cps|
                           && (r.value.1 < |cps| ==> cps[r.value.1] == ']' as int)
                           && forall k | 0 <= k < |r.value.0| :: ClassMember(r.value.0[k])
    decreases |cps| - i, 0
  {
    var m := ClassMemberAt(cps, i, config);
    match m.result
    case Failure(e) => Failure(e)
    case Success(n) =>
      match ClassMembersAt(cps, m.next, config)
      case Failure(e) => Failure(e)
      case Success((ns, end)) => Success(([n] + ns, end))
  }

  /** The members `ns` in front of those of `r`. */
  function Prepended(ns: seq<ASTNode>, r: Result<(seq<ASTNode>, nat), ParseError>): Result<(seq<ASTNode>, nat), ParseError>
  {
    match r
    case Failure(e) => Failure(e)
    case Success((ms, end)) => Success((ns + ms, end))
  }

  lemma PrependedNothing(r: Result<(seq<ASTNode>, nat), ParseError>)
    ensures Prepended([], r) == r
  {
    if r.Success? {
      assert [] + r.value.0 == r.value.0;
    }
  }

  lemma PrependedTwice(ns: seq<ASTNode>, n: ASTNode, r: Result<(seq<ASTNode>, nat), ParseError>)
    ensures Prepended(ns, Prepended([n], r)) == Prepended(ns + [n], r)
  {
    if r.Success? {
      assert ns + ([n] + r.value.0) == (ns + [n]) + r.value.0;
    }
  }

  /**
   * `[...]` with the `[` at `c`: the members up to `]` in a class node,
   * inverted after `[^`, which also skips the code point after the `^`.
   */
  function ClassAt(cps: seq<int>, c: nat, config: Config): (s: Scan)
    requires IsCodePoints(cps)
    ensures var inverted := c + 1 < |cps| && cps[c + 1] == '^' as int;
            var r := ClassMembersAt(cps, if inverted then c + 3 else c + 1, config);
            && (r.Failure? ==> s.result == Failure(r.error))
            && (r.Success? && r.value.1 < |cps| ==>
                  s == Scan(Success(if inverted then InvertedCharacterClassNode(r.value.0) else CharacterClassNode(r.value.0)),
                            r.value.1 + 1))
            && (r.Success? && r.value.1 >= |cps| ==> s == Raise(ExpectedCloseBracket, r.value.1))
    ensures s.result.Success? ==> && c < s.next <= |cps| && cps[s.next - 1] == ']' as int
                                  && RefsOf(s.result.value) == []
                                  && var n := s.result.value;
                                     && (n.CharacterClassNode? || n.InvertedCharacterClassNode?)
                                     && (n.InvertedCharacterClassNode? <==> c + 1 < |cps| && cps[c + 1] == '^' as int)
                                     && forall k | 0 <= k < |n.nodes| :: ClassMember(n.nodes[k])
  {
    var inverted := c + 1 < |cps| && cps[c + 1] == '^' as int;
    var first := if inverted then c + 3 else c + 1;
    match ClassMembersAt(cps, first, config)
    case Failure(e) => Scan(Failure(e), first)
    case Success((members, end)) =>
      if end < |cps| then Scan(Success(if inverted then InvertedCharacterClassNode(members) else CharacterClassNode(members)), end + 1)
      else Raise(ExpectedCloseBracket, end)
  }

  /** The bounds of `{m}`, `{m,}` or `{m,n}` and the position after the `}`. */
  datatype Bounds = Bounds(min: int, max: Option<int>, next: nat)

  /**
   * The bounds from `i` (just after the `{`): up to eight decimal digits,
   * then `}`, or `,` and up to eight more digits and `}`; None when they are
   * incomplete. The values are the 32-bit `(v * 10) or d` accumulations.
   */
  function BoundsAt(cps: seq<int>, i: nat): (b: Option<Bounds>)
    requires i <= |cps|
    ensures var lo := DigitsAt(cps, i, 10, 8);
            var j := i + |lo|;
            && (lo == [] || j >= |cps| || (cps[j] != ',' as int && cps[j] != '}' as int) ==> b.None?)
            && (lo != [] && j < |cps| ==>
                  var (max, k) := UpperBoundAt(cps, Accumulate(lo, 10), j);
                  && (b.Some? <==> k < |cps| && cps[k] == '}' as int)
                  && (b.Some? ==> b.value == Bounds(Accumulate(lo, 10), max, k + 1)))
    ensures b.Some? ==> && i < b.value.next <= |cps| && cps[b.value.next - 1] == '}' as int
                        && 0 <= b.value.min < 100_000_000
                        && (b.value.max.Some? ==> 0 <= b.value.max.value < 100_000_000)
  {
    var lo := DigitsAt(cps, i, 10, 8);
    var j := i + |lo|;
    BoundBelow(cps, i);
    if lo == [] || j >= |cps| then None
    else
      StartsWithOne(cps, j, ',' as int);
      var (max, k) := UpperBoundAt(cps, Accumulate(lo, 10), j);
      if k < |cps| && cps[k] == '}' as int then Some(Bounds(Accumulate(lo, 10), max, k + 1)) else None
  }

  /**
   * The upper bound of `{min...` with the position `j` after the lower
   * bound, and the position after it: `min` itself when no `,` follows;
   * after a `,`, the value of up to eight decimal digits, none when there
   * are no digits.
   */
  function UpperBoundAt(cps: seq<int>, min: int, j: nat): (r: (Option<int>, nat))
    requires j <= |cps|
    ensures !StartsWith(cps, j, [',' as int]) ==> r == (Some(min), j)
    ensures StartsWith(cps, j, [',' as int]) ==>
              var hi := DigitsAt(cps, j + 1, 10, 8);
              r == (if hi == [] then None else Some(Accumulate(hi, 10)), j + 1 + |hi|)
    ensures j <= r.1 <= |cps|
    ensures 0 <= min < 100_000_000 && r.0.Some? ==> 0 <= r.0.value < 100_000_000
  {
    StartsWithOne(cps, j, ',' as int);
    if j < |cps| && cps[j] == ',' as int then
      var hi := DigitsAt(cps, j + 1, 10, 8);
      BoundBelow(cps, j + 1);
      (if hi == [] then None else Some(Accumulate(hi, 10)), j + 1 + |hi|)
    else (Some(min), j)
  }

  /**
   * The `{...}` quantifier with bounds `min` and `max` around `target`, the
   * cursor at `position` after the `}`: an out-of-order range and a target
   * that is already a quantifier (a repetition included) are syntax errors,
   * bounds that do not fit a `Short` fail an `expect`, and a `?` makes it
   * lazy.
   */
  function RepetitionOf(cps: seq<int>, target: ASTNode, min: int, max: Option<int>, position: int)
    : (r: Result<ASTNode, ParseError>)
    requires 0 <= min && (max.Some? ==> 0 <= max.value)
    ensures max.Some? && min > max.value ==> r == Failure(SyntaxError(QuantifierOutOfOrder, position))
    ensures !(max.Some? && min > max.value) && IsQuantifier(target) ==> r == Failure(SyntaxError(InvalidQuantifier, position))
    ensures r.Success? <==> && !(max.Some? && min > max.value) && !IsQuantifier(target)
                            && min < SHORT_MAX && (max.Some? ==> max.value < SHORT_MAX)
    ensures r.Failure? && !r.error.SyntaxError? ==> r.error == Internal(ExpectationError)
    ensures r.Success? ==> && r.value.RepetitionNode? && r.value.node == target
                           && r.value.min as int == min
                           && (r.value.max.Some? <==> max.Some?)
                           && (max.Some? ==> r.value.max.value as int == max.value)
                           && r.value.lazy == StartsWith(cps, position, ['?' as int])
  {
    if max.Some? && min > max.value then Failure(SyntaxError(QuantifierOutOfOrder, position))
    else if IsQuantifier(target) then Failure(SyntaxError(InvalidQuantifier, position))
    else if !(min < SHORT_MAX) || (max.Some? && !(max.value < SHORT_MAX)) then Failure(Internal(ExpectationError))
    else Success(RepetitionNode(target, ToShort(min), if max.Some? then Some(ToShort(max.value)) else None,
                                StartsWith(cps, position, ['?' as int])))
  }

  /** The quantifier node `?`, `*` or `+` puts around `target`. */
  function QuantifierOf(cp: int, target: ASTNode, lazy: bool): (r: ASTNode)
    ensures IsQuantifier(r) && r.node == target && r.lazy == lazy
  {
    if cp == '?' as int then ZeroOrOneNode(target, lazy)
    else if cp == '*' as int then ZeroOrMoreNode(target, lazy)
    else OneOrMoreNode(target, lazy)
  }

  /**
   * The final pass over the `\\k<name>` references, in source order: the
   * first one whose name no group has is a syntax error at `position`, and
   * one whose name has no entry in `namedGroups` makes `first` throw.
   */
  function ReferenceCheck(refs: seq<string>, names: set<string>, m: seq<(int16, string)>, position: int): Outcome<ParseError>
  {
    if refs == [] then Pass
    else if refs[0] !in names then Fail(SyntaxError(UnknownGroupName, position))
    else if FirstKeyOf(m, refs[0]).None? then Fail(Internal(NoSuchElement))
    else ReferenceCheck(refs[1..], names, m, position)
  }

  /**
   * While fewer than 32767 groups are open, every name a group has leads
   * `FirstKeyOf` to the index of the first group with that name.
   */
  lemma FirstKeyOfNamed(groups: GroupLog, name: string)
    requires |groups| < SHORT_MAX && name in NamesOf(groups)
    ensures var key := FirstKeyOf(NamedGroupsOf(groups), name);
            key.Some? && 1 <= key.value <= |groups| && groups[key.value - 1] == Some(name)
  {
    NamedGroupsInOrder(groups);
    var i :| 0 <= i < |groups| && groups[i] == Some(name);
    EntriesHas(groups, i);
    var key := FirstKeyOf(NamedGroupsOf(groups), name);
    assert key.Some? ==> (key.value, name) in Entries(groups);
  }

  /** Every named group has its entry. */
  lemma {:induction false} EntriesHas(groups: GroupLog, i: nat)
    requires |groups| < SHORT_MAX && i < |groups| && groups[i].Some?
    ensures ((i + 1) as int16, groups[i].value) in Entries(groups)
  {
    var prior := groups[..|groups| - 1];
    if i < |groups| - 1 {
      assert prior[i] == groups[i];
      EntriesHas(prior, i);
    }
  }

  /**
   * With all names present and fewer than 32767 groups, the final pass
   * passes: `first` cannot throw.
   */
  lemma ReferenceCheckPasses(refs: seq<string>, groups: GroupLog, position: int)
    requires |groups| < SHORT_MAX
    requires forall k | 0 <= k < |refs| :: refs[k] in NamesOf(groups)
    ensures ReferenceCheck(refs, NamesOf(groups), NamedGroupsOf(groups), position) == Pass
  {
    if refs != [] {
      FirstKeyOfNamed(groups, refs[0]);
      ReferenceCheckPasses(refs[1..], groups, position);
    }
  }

  /** A reference to a name no group has is always reported. */
  lemma {:induction false} ReferenceCheckReportsUnknown(refs: seq<string>, names: set<string>, m: seq<(int16, string)>, position: int)
    requires exists k | 0 <= k < |refs| :: refs[k] !in names
    ensures ReferenceCheck(refs, names, m, position).Fail?
  {
    if refs[0] in names && FirstKeyOf(m, refs[0]).Some? {
      var k :| 0 <= k < |refs| && refs[k] !in names;
      assert refs[1..][k - 1] == refs[k];
      ReferenceCheckReportsUnknown(refs[1..], names, m, position);
    }
  }

  // ---------------------------------------------------------------------------
  // Worked examples

  /** `[^ab]`: the code point after `^` is skipped, so the class holds only `b`. */
  lemma CaretSkipsOneMember(config: Config)
    ensures ClassAt(['[' as int, '^' as int, 'a' as int, 'b' as int, ']' as int], 0, config)
            == Scan(Success(InvertedCharacterClassNode([CodePointNode('b' as int)])), 5)
  {
    var cps := ['[' as int, '^' as int, 'a' as int, 'b' as int, ']' as int];
    assert !RangeDashAt(cps, 4);
    assert ClassMemberAt(cps, 3, config) == Scan(Success(CodePointNode('b' as int)), 4);
    assert ClassMembersAt(cps, 4, config) == Success(([], 4));
    assert [CodePointNode('b' as int)] + [] == [CodePointNode('b' as int)];
    assert MembersFrom(cps, 3, config) == Success(([CodePointNode('b' as int)], 4));
    assert ClassMembersAt(cps, 3, config) == Success(([CodePointNode('b' as int)], 4));
  }

  /** `[a]`: one code point member. */
  lemma OneMemberClass(config: Config)
    ensures ClassAt(['[' as int, 'a' as int, ']' as int], 0, config)
            == Scan(Success(CharacterClassNode([CodePointNode('a' as int)])), 3)
  {
    var cps := ['[' as int, 'a' as int, ']' as int];
    assert !RangeDashAt(cps, 2);
    assert ClassMemberAt(cps, 1, config) == Scan(Success(CodePointNode('a' as int)), 2);
    assert ClassMembersAt(cps, 2, config) == Success(([], 2));
    assert [CodePointNode('a' as int)] + [] == [CodePointNode('a' as int)];
    assert MembersFrom(cps, 1, config) == Success(([CodePointNode('a' as int)], 2));
    assert ClassMembersAt(cps, 1, config) == Success(([CodePointNode('a' as int)], 2));
  }

  /** `a{5,2}`: complete bounds out of order are a syntax error after the `}`. */
  lemma BoundsOutOfOrder()
    ensures BoundsAt(['a' as int, '{' as int, '5' as int, ',' as int, '2' as int, '}' as int], 2) == Some(Bounds(5, Some(2), 6))
    ensures RepetitionOf(['a' as int, '{' as int, '5' as int, ',' as int, '2' as int, '}' as int], CodePointNode('a' as int), 5, Some(2), 6)
            == Failure(SyntaxError(QuantifierOutOfOrder, 6))
  {
    var cps := ['a' as int, '{' as int, '5' as int, ',' as int, '2' as int, '}' as int];
    assert DigitsAt(cps, 2, 10, 8) == [5] by {
      assert DigitsAt(cps, 3, 10, 7) == [];
    }
    assert DigitsAt(cps, 4, 10, 8) == [2] by {
      assert DigitsAt(cps, 5, 10, 7) == [];
    }
    assert [5][..0] == [] && [2][..0] == [];
    StartsWithOne(cps, 3, ',' as int);
  }

  /** `a{2` and `a{2,x}`: incomplete bounds, which make the `{` a literal. */
  lemma BoundsIncomplete()
    ensures BoundsAt(['a' as int, '{' as int, '2' as int], 2).None?
    ensures BoundsAt(['a' as int, '{' as int, '2' as int, ',' as int, 'x' as int, '}' as int], 2).None?
  {
    var short := ['a' as int, '{' as int, '2' as int];
    assert DigitsAt(short, 3, 10, 7) == [];
    var bad := ['a' as int, '{' as int, '2' as int, ',' as int, 'x' as int, '}' as int];
    assert DigitsAt(bad, 2, 10, 8) == [2] by {
      assert DigitsAt(bad, 3, 10, 7) == [];
    }
    assert DigitsAt(bad, 4, 10, 8) == [];
    StartsWithOne(bad, 3, ',' as int);
  }

  /** `\u{110000}` in unicode mode: past 0x10ffff, an error just after the `{`. */
  lemma BracedEscapeTooLarge()
    ensures var cps := ['\\' as int, 'u' as int, '{' as int, '1' as int, '1' as int, '0' as int, '0' as int, '0' as int, '0' as int, '}' as int];
            UnicodeEscapeAt(cps, 1, true) == Raise(UnicodeEscapeTooLarge, 3)
  {
    var cps := ['\\' as int, 'u' as int, '{' as int, '1' as int, '1' as int, '0' as int, '0' as int, '0' as int, '0' as int, '}' as int];
    assert DigitsAt(cps, 9, 16, INT_MAX - 6) == [];
    assert DigitsAt(cps, 8, 16, INT_MAX - 5) == [0];
    assert DigitsAt(cps, 7, 16, INT_MAX - 4) == [0, 0];
    assert DigitsAt(cps, 6, 16, INT_MAX - 3) == [0, 0, 0];
    assert DigitsAt(cps, 5, 16, INT_MAX - 2) == [0, 0, 0, 0];
    assert DigitsAt(cps, 4, 16, INT_MAX - 1) == [1, 0, 0, 0, 0];
    var ds := [1, 1, 0, 0, 0, 0];
    assert DigitsAt(cps, 3, 16, INT_MAX) == ds;
    assert ds[..5] == [1, 1, 0, 0, 0] && [1, 1, 0, 0, 0][..4] == [1, 1, 0, 0] && [1, 1, 0, 0][..3] == [1, 1, 0];
    assert [1, 1, 0][..2] == [1, 1] && [1, 1][..1] == [1] && [1][..0] == [];
    assert Positional(ds, 16) == 0x11_0000;
    AccumulateIsPositional(ds, 16);
  }

  // ---------------------------------------------------------------------------
  // Node buffers

  function Top(bufs: seq<seq<ASTNode>>): seq<ASTNode>
    requires |bufs| >= 1
  {
    bufs[|bufs| - 1]
  }

  /** The buffers below the innermost one. */
  function Below(bufs: seq<seq<ASTNode>>): seq<seq<ASTNode>>
    requires |bufs| >= 1
  {
    bufs[..|bufs| - 1]
  }

  /** `+node`: the buffers with `n` appended to the innermost one. */
  function WithNode(bufs: seq<seq<ASTNode>>, n: ASTNode): (r: seq<seq<ASTNode>>)
    requires |bufs| >= 1
    ensures |r| == |bufs| && Below(r) == Below(bufs) && Top(r) == Top(bufs) + [n]
  {
    Below(bufs) + [Top(bufs) + [n]]
  }

  /** The last node of the innermost buffer replaced by `n`. */
  function ReplaceLast(bufs: seq<seq<ASTNode>>, n: ASTNode): (r: seq<seq<ASTNode>>)
    requires |bufs| >= 1 && |Top(bufs)| >= 1
    ensures |r| == |bufs| && Below(r) == Below(bufs) && |Top(r)| == |Top(bufs)| && LastNode(r) == n
  {
    var top := Top(bufs);
    Below(bufs) + [top[..|top| - 1] + [n]]
  }

  /** The innermost buffer was replaced by a non-empty one; the others are unchanged. */
  predicate SameDepth(before: seq<seq<ASTNode>>, after: seq<seq<ASTNode>>)
  {
    |before| >= 1 && |after| == |before| && Below(after) == Below(before) && |Top(after)| >= 1
  }

  /** Exactly one node was appended to the innermost buffer. */
  predicate AddedOne(before: seq<seq<ASTNode>>, after: seq<seq<ASTNode>>)
  {
    |before| >= 1 && |after| == |before| && |Top(after)| >= 1
    && after == WithNode(before, Top(after)[|Top(after)| - 1])
  }

  function LastNode(bufs: seq<seq<ASTNode>>): ASTNode
    requires |bufs| >= 1 && |Top(bufs)| >= 1
  {
    Top(bufs)[|Top(bufs)| - 1]
  }

  /** Appending a node can be undone: the buffers and the node are determined. */
  lemma WithNodeInjective(a: seq<seq<ASTNode>>, b: seq<seq<ASTNode>>, x: ASTNode, y: ASTNode)
    requires |a| >= 1 && |b| >= 1 && WithNode(a, x) == WithNode(b, y)
    ensures a == b && x == y
  {
    var w := WithNode(a, x);
    assert Top(a) == Top(w)[..|Top(w)| - 1] == Top(b);
    assert a == Below(a) + [Top(a)];
    assert b == Below(b) + [Top(b)];
  }

  // ---------------------------------------------------------------------------
  // The parser

  /** One entry per opened capturing group: its name, if it has one. */
  type GroupLog = seq<Option<string>>

  /** Opening one more group, under a fresh name or none, extends the log's views. */
  lemma GroupLogAppend(groups: GroupLog, name: Option<string>)
    requires DistinctNames(groups) && (name.Some? ==> name.value !in NamesOf(groups))
    ensures DistinctNames(groups + [name])
    ensures NamesOf(groups + [name]) == NamesOf(groups) + (if name.Some? then {name.value} else {})
    ensures NamedGroupsOf(groups + [name])
            == if name.Some? then Put(NamedGroupsOf(groups), ToShort(|groups| + 1), name.value) else NamedGroupsOf(groups)
  {
    assert (groups + [name])[..|groups|] == groups;
    NamesOfAppend(groups, name);
    DistinctNamesAppend(groups, name);
  }

  lemma NamesOfAppend(groups: GroupLog, name: Option<string>)
    ensures NamesOf(groups + [name]) == NamesOf(groups) + (if name.Some? then {name.value} else {})
  {
    var after := groups + [name];
    forall x | x in NamesOf(after) ensures x in NamesOf(groups) + (if name.Some? then {name.value} else {}) {
      var i :| 0 <= i < |after| && after[i].Some? && after[i].value == x;
      if i < |groups| {
        assert groups[i] == after[i];
      }
    }
    forall x | x in NamesOf(groups) ensures x in NamesOf(after) {
      var i :| 0 <= i < |groups| && groups[i].Some? && groups[i].value == x;
      assert after[i] == groups[i];
    }
    if name.Some? {
      assert after[|groups|] == name;
    }
  }

  lemma DistinctNamesAppend(groups: GroupLog, name: Option<string>)
    requires DistinctNames(groups) && (name.Some? ==> name.value !in NamesOf(groups))
    ensures DistinctNames(groups + [name])
  {
    var after := groups + [name];
    forall i, j | 0 <= i < j < |after| && after[i].Some? ensures after[j] != after[i] {
      assert after[i] == groups[i];
      if j == |groups| {
        assert groups[i].value in NamesOf(groups);
      } else {
        assert after[j] == groups[j];
      }
    }
  }

  /** No two named groups share a name. */
  predicate DistinctNames(groups: GroupLog)
  {
    forall i, j | 0 <= i < j < |groups| && groups[i].Some? :: groups[j] != groups[i]
  }

  /**
   * The group bookkeeping agrees with the log of opened groups: the next
   * index, the named entries and the set of names all follow from it, and
   * no name is used twice.
   */
  predicate GroupsConsistent(next: int, named: seq<(int16, string)>, names: set<string>, groups: GroupLog)
  {
    && next == ToShort(|groups| + 1)
    && named == NamedGroupsOf(groups)
    && names == NamesOf(groups)
    && DistinctNames(groups)
  }

  /** `groups` is `before` with possibly more groups opened after it. */
  predicate Extends(before: GroupLog, after: GroupLog)
  {
    |before| <= |after| && after[..|before|] == before
  }

  /**
   * What may stand in a class: no back reference (`\1` there is an octal
   * escape and `\k` an error), and ranges only in increasing order.
   */
  predicate ClassMember(n: ASTNode)
  {
    !n.BackReferenceNode? && (n.CodePointRangeNode? ==> n.start < n.end)
  }

  /**
   * A run of at most `k` digits of base 8 or 16, with `base^k` below `2^31`,
   * accumulates to its positional value.
   */
  lemma ShortRunIsPositional(cps: seq<int>, i: nat, base: int, k: nat)
    requires base == 8 || base == 16
    requires Power(base, k) <= 0x8000_0000
    ensures var ds := DigitsAt(cps, i, base, k);
            Accumulate(ds, base) == Positional(ds, base) < Power(base, k)
  {
    var ds := DigitsAt(cps, i, base, k);
    DigitsAtDigits(cps, i, base, k);
    PositionalBelowPower(ds, base);
    PowerMonotone(base, |ds|, k);
    AccumulateIsPositional(ds, base);
  }

  /** A run of at most `k <= 8` decimal digits accumulates to a value in [0, 10^k). */
  lemma DecimalRunBounds(cps: seq<int>, i: nat, k: nat)
    requires k <= 8
    ensures var ds := DigitsAt(cps, i, 10, k);
            0 <= Accumulate(ds, 10) < Power(10, k)
  {
    var ds := DigitsAt(cps, i, 10, k);
    DigitsAtDigits(cps, i, 10, k);
    DecimalAccumulateBounds(ds);
    PowerMonotone(10, |ds|, k);
  }

  /** The bound of a `{n,m}` number: at most eight decimal digits stay below 10^8. */
  lemma BoundBelow(cps: seq<int>, i: nat)
    ensures 0 <= Accumulate(DigitsAt(cps, i, 10, 8), 10) < 100_000_000
  {
    DecimalRunBounds(cps, i, 8);
    assert Power(10, 8) == 100_000_000;
  }

  lemma {:induction false} PowerMonotone(b: nat, j: nat, k: nat)
    requires b >= 1 && j <= k
    ensures Power(b, j) <= Power(b, k)
  {
    if j < k {
      PowerMonotone(b, j, k - 1);
      var p := Power(b, k - 1);
      assert Power(b, k) == b * p;
      assert b * p == p + (b - 1) * p;
      assert (b - 1) * p >= 0;
    }
  }

  /** Every element is a Unicode code point. */
  predicate IsCodePoints(cps: seq<int>)
  {
    forall i | 0 <= i < |cps| :: 0 <= cps[i] <= 0x10FFFF
  }

  class Parser {
    const codePoints: seq<int>
    const unicode: bool
    /** `unicodePropertyAliasList` and `unicodeValueAliasesList` */
    const propertyAliases: seq<(string, string)>
    const valueAliases: seq<(string, string)>
    var nextGroupIndex: int16
    var cursor: int
    var namedGroups: seq<(int16, string)>
    var groupNames: set<string>
    /** The names the `\k<name>` references wait for, in source order. */
    var unresolvedBackRefs: seq<string>
    var nodeBuffers: seq<seq<ASTNode>>
    /** The bound on parsing steps this model adds; the source has none. */
    var fuel: nat
    /** The capturing groups opened so far, in order. */
    ghost var groups: GroupLog

    /**
     * The group bookkeeping agrees with the groups opened: the next index is
     * one past their number as a `Short`, the map and the name set hold
     * their names, and no name is used twice.
     */
    ghost predicate Valid()
      reads this`cursor, this`nextGroupIndex, this`namedGroups, this`groupNames, this`groups
    {
      IsCodePoints(codePoints) && cursor >= 0 && GroupsValid()
    }

    ghost predicate GroupsValid()
      reads this`nextGroupIndex, this`namedGroups, this`groupNames, this`groups
    {
      GroupsConsistent(nextGroupIndex, namedGroups, groupNames, groups)
    }

    constructor(codePoints: seq<int>, unicode: bool, propertyAliases: seq<(string, string)>,
                valueAliases: seq<(string, string)>, fuel: nat)
      requires IsCodePoints(codePoints)
      ensures Valid()
      ensures this.codePoints == codePoints && this.unicode == unicode && this.fuel == fuel
      ensures this.propertyAliases == propertyAliases && this.valueAliases == valueAliases
      ensures cursor == 0 && groups == [] && unresolvedBackRefs == [] && nodeBuffers == []
    {
      this.codePoints := codePoints;
      this.unicode := unicode;
      this.propertyAliases := propertyAliases;
      this.valueAliases := valueAliases;
      this.fuel := fuel;
      nextGroupIndex := 1;
      cursor := 0;
      namedGroups := [];
      groupNames := {};
      unresolvedBackRefs := [];
      nodeBuffers := [];
      groups := [];
    }

    /** `done` */
    predicate Done()
      reads this
    {
      cursor >= |codePoints|
    }

    /** `peek(n)` */
    function Peek(n: int): (r: Option<int>)
      reads this
      ensures r.Some? <==> 0 <= cursor + n < |codePoints|
      ensures r.Some? ==> r.value == codePoints[cursor + n]
    {
      if 0 <= cursor + n < |codePoints| then Some(codePoints[cursor + n]) else None
    }

    /** The current code point is `cp`. */
    predicate At(cp: int)
      reads this
    {
      0 <= cursor < |codePoints| && codePoints[cursor] == cp
    }

    /** `error(...)`: a syntax error at the cursor. */
    function Error(kind: SyntaxErrorKind): ParseError
      reads this
    {
      SyntaxError(kind, cursor)
    }

    /** The unicode flag and the alias tables this parser reads with. */
    function Settings(): Config
    {
      Config(unicode, propertyAliases, valueAliases)
    }

    /**
     * The parser did what `s` describes, starting from the buffers `buffers`
     * and the awaited names `refs`: it failed with `s`'s error, or it added
     * `s`'s node to the innermost buffer, left the cursor at `s.next` and
     * recorded the name the node awaits.
     */
    ghost predicate Did(o: Outcome<ParseError>, s: Scan, buffers: seq<seq<ASTNode>>, refs: seq<string>)
      reads this
    {
      match s.result
      case Failure(e) => o == Fail(e) && unresolvedBackRefs == refs
      case Success(n) => && o.Pass? && |buffers| >= 1 && nodeBuffers == WithNode(buffers, n) && cursor == s.next
                         && unresolvedBackRefs == refs + RefsOf(n)
    }

    /**
     * The parser did what the repetition `rep` describes, the cursor at
     * `position` after the `}` and the buffers before it `buffers`: it failed
     * with `rep`'s error, or the repetition replaced the last node and the
     * cursor stepped over the lazy `?`.
     */
    ghost predicate Repeated(r: Result<bool, ParseError>, rep: Result<ASTNode, ParseError>, position: int,
                             buffers: seq<seq<ASTNode>>)
      reads this
    {
      && |buffers| >= 1 && |Top(buffers)| >= 1
      && match rep
         case Failure(e) => r == Failure(e)
         case Success(n) => && r == Success(true) && n.RepetitionNode? && nodeBuffers == ReplaceLast(buffers, n)
                            && cursor == position + (if n.lazy then 1 else 0)
    }

    /**
     * The parser did what the `{` case does with the `{` at `c`, the buffers
     * before it `buffers`: nothing after the `{` is an index error; bounds
     * that `BoundsAt` finds incomplete give a literal `{` (the cursor set to
     * the value of the code point after the `{`); complete ones give the
     * outcome of `RepetitionOf` around the last node.
     */
    ghost predicate RepetitionDone(r: Result<bool, ParseError>, c: int, buffers: seq<seq<ASTNode>>)
      reads this
    {
      && 0 <= c < |codePoints| && |buffers| >= 1 && |Top(buffers)| >= 1
      && if c + 1 == |codePoints| then r == Failure(Internal(IndexOutOfBounds))
         else match BoundsAt(codePoints, c + 1)
           case None => && r == Success(false) && cursor == codePoints[c + 1]
                        && nodeBuffers == WithNode(buffers, CodePointNode('{' as int))
           case Some(b) => Repeated(r, RepetitionOf(codePoints, LastNode(buffers), b.min, b.max, b.next), b.next, buffers)
    }

    /** One parsing step of the fuel bound. */
    method Tick() returns (o: Outcome<ParseError>)
      modifies this`fuel
      ensures o.Pass? <==> old(fuel) > 0
      ensures o.Fail? ==> o.error == OutOfFuel
      ensures fuel == if old(fuel) > 0 then old(fuel) - 1 else old(fuel)
    {
      if fuel == 0 {
        return Fail(OutOfFuel);
      }
      fuel := fuel - 1;
      return Pass;
    }

    /** `consumeIf`: steps over `lit` when it comes next. */
    method ConsumeIf(lit: seq<int>) returns (b: bool)
      requires cursor >= 0
      modifies this`cursor
      ensures b == StartsWith(codePoints, old(cursor), lit)
      ensures cursor == old(cursor) + (if b then |lit| else 0)
    {
      if cursor + |lit| > |codePoints| {
        return false;
      }
      for i := 0 to |lit|
        invariant forall j | 0 <= j < i :: codePoints[cursor + j] == lit[j]
      {
        if codePoints[cursor + i] != lit[i] {
          assert codePoints[cursor..cursor + |lit|][i] != lit[i];
          return false;
        }
      }
      assert codePoints[cursor..cursor + |lit|] == lit;
      cursor := cursor + |lit|;
      return true;
    }

    /** `consumeUntil`: steps to the next `delimiter`, returning what it stepped over. */
    method ConsumeUntil(delimiter: int) returns (r: Option<seq<int>>)
      requires cursor >= 0
      modifies this`cursor
      ensures cursor == FindFrom(codePoints, old(cursor), delimiter)
      ensures r.Some? <==> cursor != old(cursor)
      ensures r.Some? ==> r.value == codePoints[old(cursor)..cursor]
    {
      var start := cursor;
      while !Done() && codePoints[cursor] != delimiter
        invariant start <= cursor && FindFrom(codePoints, start, delimiter) == FindFrom(codePoints, cursor, delimiter)
        decreases |codePoints| - cursor
      {
        cursor := cursor + 1;
      }
      if cursor != start {
        return Some(codePoints[start..cursor]);
      }
      return None;
    }

    /**
     * `parseNumber`: reads between `min` and `max` digits of `base` at the
     * cursor, without consuming them.
     */
    method ParseNumber(min: int, max: int, base: int) returns (r: Option<NumberInfo>)
      requires 0 <= min && base <= 16
      requires 0 <= cursor <= |codePoints|
      ensures var ds := DigitsAt(codePoints, cursor, base, max);
              && (r.Some? <==> min <= |ds| <= max)
              && (r.Some? ==> r.value.codePoints == codePoints[cursor..cursor + |ds|]
                              && r.value.value == Accumulate(ds, base))
    {
      var value, numChars := ReadDigits(max, base);
      if !(min <= numChars <= max) {
        return None;
      }
      return Some(NumberInfo(codePoints[cursor..cursor + numChars], value));
    }

    /** The loop of `parseNumber`. */
    method ReadDigits(max: int, base: int) returns (value: int, numChars: nat)
      requires 0 <= cursor <= |codePoints|
      ensures numChars == |DigitsAt(codePoints, cursor, base, max)|
      ensures value == Accumulate(DigitsAt(codePoints, cursor, base, max), base)
    {
      value := 0;
      numChars := 0;
      ghost var ds := DigitsAt(codePoints, cursor, base, max);
      while cursor + numChars < |codePoints| && numChars < max
        invariant numChars <= |ds| && value == Accumulate(ds[..numChars], base)
        decreases max - numChars
      {
        var digit := CodePointToInt(codePoints[cursor + numChars], base);
        if digit.None? {
          DigitsAtStops(codePoints, cursor, base, max, numChars);
          break;
        }
        DigitsAtContinues(codePoints, cursor, base, max, numChars, digit.value);
        AccumulatePrefix(ds, numChars, base);
        value := NextValue(value, base, digit.value);
        numChars := numChars + 1;
      }
      assert ds[..numChars] == ds;
    }

    /**
     * `parseName`: a non-empty name of word characters (and `=` in a class
     * name) up to `delimiter`, stepping over the delimiter.
     */
    method ParseName(delimiter: int, isUnicodeClass: bool) returns (r: Result<string, ParseError>)
      requires cursor >= 0
      modifies this`cursor
      ensures cursor >= 0
      ensures r == NameAt(codePoints, old(cursor), delimiter, isUnicodeClass)
      ensures r.Success? ==> cursor == old(cursor) + |r.value| + 1
    {
      var start := cursor;
      var name := ConsumeUntil(delimiter);
      if name.None? {
        return Failure(Error(ExpectedName));
      }
      if Done() {
        return Failure(Error(ExpectedDelimiter));
      }
      cursor := cursor + 1;
      var chars := name.value;
      assert forall j | 0 <= j < |chars| :: chars[j] == codePoints[start + j];
      FirstNonNameSkipsNames(codePoints, start, start + |chars|, isUnicodeClass);
      for index := 0 to |chars|
        invariant forall j | 0 <= j < index :: IsNameChar(chars[j], isUnicodeClass)
        invariant forall j | start <= j < start + index :: IsNameChar(codePoints[j], isUnicodeClass)
      {
        assert chars[index] == codePoints[start + index];
        if !IsNameChar(chars[index], isUnicodeClass) {
          cursor := start + index;
          assert FirstNonName(codePoints, start, start + |chars|, isUnicodeClass) == cursor;
          return Failure(Error(InvalidNameChar));
        }
      }
      assert FirstNonName(codePoints, start, start + |chars|, isUnicodeClass) == start + |chars|;
      r := Success(seq(|chars|, j requires 0 <= j < |chars| && IsNameChar(chars[j], isUnicodeClass) => chars[j] as char));
      assert r.value == seq(|chars|, j requires 0 <= j < |chars| => codePoints[start + j] as char);
    }

    /** `nodeBuffers.last().add(n)` */
    method Add(n: ASTNode)
      requires |nodeBuffers| >= 1
      modifies this`nodeBuffers
      ensures nodeBuffers == WithNode(old(nodeBuffers), n)
    {
      nodeBuffers := WithNode(nodeBuffers, n);
    }

    /** `popNode` */
    method PopNode() returns (n: ASTNode)
      requires |nodeBuffers| >= 1 && |Top(nodeBuffers)| >= 1
      modifies this`nodeBuffers
      ensures |nodeBuffers| == |old(nodeBuffers)|
      ensures n == LastNode(old(nodeBuffers)) && old(nodeBuffers) == WithNode(nodeBuffers, n)
    {
      var top := Top(nodeBuffers);
      n := top[|top| - 1];
      nodeBuffers := Below(nodeBuffers) + [top[..|top| - 1]];
      assert top[..|top| - 1] + [n] == top;
    }

    method PushNodeBuffer()
      modifies this`nodeBuffers
      ensures nodeBuffers == old(nodeBuffers) + [[]]
    {
      nodeBuffers := nodeBuffers + [[]];
    }

    method PopNodeBuffer() returns (ns: seq<ASTNode>)
      requires |nodeBuffers| >= 1
      modifies this`nodeBuffers
      ensures ns == Top(old(nodeBuffers)) && nodeBuffers == Below(old(nodeBuffers))
    {
      ns := Top(nodeBuffers);
      nodeBuffers := Below(nodeBuffers);
    }

    // -------------------------------------------------------------------------
    // Escapes

    /**
     * `parseEscape`: the escape at the backslash under the cursor adds one
     * node and steps past the escape.
     */
    method ParseEscape(inCharClass: bool) returns (o: Outcome<ParseError>)
      requires Valid() && |nodeBuffers| >= 1 && At('\\' as int)
      modifies this`cursor, this`nodeBuffers, this`unresolvedBackRefs
      ensures Valid()
      ensures old(cursor) + 1 == |codePoints| ==> o == Fail(SyntaxError(TrailingBackslash, old(cursor) + 1))
      ensures o.Pass? ==> AddedOne(old(nodeBuffers), nodeBuffers) && old(cursor) < cursor <= |codePoints|
      ensures o.Pass? && inCharClass ==> ClassMember(LastNode(nodeBuffers))
      ensures old(cursor) + 1 < |codePoints| && SimpleEscape(codePoints[old(cursor) + 1], inCharClass).Some? ==>
                o.Pass? && LastNode(nodeBuffers) == SimpleEscape(codePoints[old(cursor) + 1], inCharClass).value
                && cursor == old(cursor) + 2
      ensures inCharClass && old(cursor) + 1 < |codePoints| && codePoints[old(cursor) + 1] == 'k' as int ==>
                o == Fail(SyntaxError(EscapeKInClass, old(cursor) + 1))
      ensures inCharClass ==> unresolvedBackRefs == old(unresolvedBackRefs)
      ensures unresolvedBackRefs == old(unresolvedBackRefs)
              || (o.Pass? && exists name :: unresolvedBackRefs == old(unresolvedBackRefs) + [name]
                                            && LastNode(nodeBuffers) == BackReferenceNode(SHORT_MIN, Some(name)))
      ensures Did(o, EscapeAt(codePoints, old(cursor) + 1, inCharClass, Settings()), old(nodeBuffers), old(unresolvedBackRefs))
    {
      cursor := cursor + 1;
      if Done() {
        return Fail(Error(TrailingBackslash));
      }
      var simple := SimpleEscape(codePoints[cursor], inCharClass);
      if simple.Some? {
        cursor := cursor + 1;
        Add(simple.value);
        return Pass;
      }
      o := ParseOtherEscape(inCharClass);
    }

    /**
     * The escapes after the backslash that are not a single fixed node:
     * digits, `u`, `x`, `p`/`P`, `k`, and an identity escape of any other
     * code point.
     */
    method ParseOtherEscape(inCharClass: bool) returns (o: Outcome<ParseError>)
      requires Valid() && |nodeBuffers| >= 1 && 0 < cursor < |codePoints|
      requires SimpleEscape(codePoints[cursor], inCharClass).None?
      modifies this`cursor, this`nodeBuffers, this`unresolvedBackRefs
      ensures Valid()
      ensures o.Pass? ==> AddedOne(old(nodeBuffers), nodeBuffers) && old(cursor) < cursor <= |codePoints|
      ensures o.Pass? && inCharClass ==> ClassMember(LastNode(nodeBuffers))
      ensures inCharClass && codePoints[old(cursor)] == 'k' as int ==>
                o == Fail(SyntaxError(EscapeKInClass, old(cursor)))
      ensures inCharClass ==> unresolvedBackRefs == old(unresolvedBackRefs)
      ensures unresolvedBackRefs == old(unresolvedBackRefs)
              || (o.Pass? && exists name :: unresolvedBackRefs == old(unresolvedBackRefs) + [name]
                                            && LastNode(nodeBuffers) == BackReferenceNode(SHORT_MIN, Some(name)))
      ensures Did(o, OtherEscapeAt(codePoints, old(cursor), inCharClass, Settings()), old(nodeBuffers), old(unresolvedBackRefs))
    {
      var cp := codePoints[cursor];
      if '1' as int <= cp <= '9' as int {
        ParseDigitEscape(inCharClass);
      } else if cp == 'u' as int {
        o := ParseUnicodeEscapeSequence();
        return;
      } else if cp == 'x' as int {
        ParseHexEscape();
      } else if cp == 'p' as int || cp == 'P' as int {
        o := ParseProperty();
        return;
      } else if cp == 'k' as int {
        if inCharClass {
          return Fail(Error(EscapeKInClass));
        }
        o := ParseNamedReference();
        return;
      } else {
        Add(CodePointNode(cp));
        cursor := cursor + 1;
      }
      return Pass;
    }

    /**
     * `\1` to `\9`: in a class an octal escape of up to three digits (or
     * the digit itself when it is not octal); elsewhere a numbered back
     * reference of up to three decimal digits.
     */
    method ParseDigitEscape(inCharClass: bool)
      requires Valid() && |nodeBuffers| >= 1
      requires 0 <= cursor < |codePoints| && '1' as int <= codePoints[cursor] <= '9' as int
      modifies this`cursor, this`nodeBuffers
      ensures Valid() && AddedOne(old(nodeBuffers), nodeBuffers) && old(cursor) < cursor <= |codePoints|
      ensures var octal := DigitsAt(codePoints, old(cursor), 8, 3);
              inCharClass ==>
                && LastNode(nodeBuffers).CodePointNode?
                && LastNode(nodeBuffers).codePoint == if octal == [] then codePoints[old(cursor)] else Positional(octal, 8)
      ensures var decimal := DigitsAt(codePoints, old(cursor), 10, 3);
              !inCharClass ==>
                && 0 <= Accumulate(decimal, 10) < 1000
                && LastNode(nodeBuffers) == BackReferenceNode(Accumulate(decimal, 10), None)
      ensures Did(Pass, DigitEscapeAt(codePoints, old(cursor), inCharClass), old(nodeBuffers), unresolvedBackRefs)
    {
      if inCharClass {
        ParseOctalEscape();
      } else {
        ParseNumberedReference();
      }
    }

    /** The class half of `ParseDigitEscape`. */
    method ParseOctalEscape()
      requires Valid() && |nodeBuffers| >= 1
      requires 0 <= cursor < |codePoints| && '1' as int <= codePoints[cursor] <= '9' as int
      modifies this`cursor, this`nodeBuffers
      ensures Valid() && AddedOne(old(nodeBuffers), nodeBuffers) && old(cursor) < cursor <= |codePoints|
      ensures var octal := DigitsAt(codePoints, old(cursor), 8, 3);
              && LastNode(nodeBuffers).CodePointNode?
              && LastNode(nodeBuffers).codePoint == if octal == [] then codePoints[old(cursor)] else Positional(octal, 8)
      ensures Did(Pass, DigitEscapeAt(codePoints, old(cursor), true), old(nodeBuffers), unresolvedBackRefs)
    {
      var number := ParseNumber(1, 3, 8);
      if number.None? {
        Add(CodePointNode(codePoints[cursor]));
        cursor := cursor + 1;
      } else {
        ShortRunIsPositional(codePoints, cursor, 8, 3);
        cursor := cursor + |number.value.codePoints|;
        Add(CodePointNode(number.value.value));
      }
    }

    /** The back-reference half of `ParseDigitEscape`. */
    method ParseNumberedReference()
      requires Valid() && |nodeBuffers| >= 1
      requires 0 <= cursor < |codePoints| && '1' as int <= codePoints[cursor] <= '9' as int
      modifies this`cursor, this`nodeBuffers
      ensures Valid() && AddedOne(old(nodeBuffers), nodeBuffers) && old(cursor) < cursor <= |codePoints|
      ensures var decimal := DigitsAt(codePoints, old(cursor), 10, 3);
              && 0 <= Accumulate(decimal, 10) < 1000
              && LastNode(nodeBuffers) == BackReferenceNode(Accumulate(decimal, 10), None)
      ensures Did(Pass, DigitEscapeAt(codePoints, old(cursor), false), old(nodeBuffers), unresolvedBackRefs)
    {
      ghost var decimal := DigitsAt(codePoints, cursor, 10, 3);
      DigitsAtDigits(codePoints, cursor, 10, 3);
      DecimalAccumulateBounds(decimal);
      PowerMonotone(10, |decimal|, 3);
      assert Power(10, 3) == 1000 by {
        assert Power(10, 2) == 100 by { assert Power(10, 1) == 10; }
      }
      var result := ParseNumber(1, 3, 10);
      match result
      case Some(info) =>
        cursor := cursor + |info.codePoints|;
        // `expect(result.value <= Short.MAX_VALUE)` always holds
        Add(BackReferenceNode(ToShort(info.value), None));
    }

    /** `\xHH`: two hex digits, or a literal `x` when they do not follow. */
    method ParseHexEscape()
      requires Valid() && |nodeBuffers| >= 1 && At('x' as int)
      modifies this`cursor, this`nodeBuffers
      ensures Valid() && AddedOne(old(nodeBuffers), nodeBuffers) && old(cursor) < cursor <= |codePoints|
      ensures var ds := DigitsAt(codePoints, old(cursor) + 1, 16, 2);
              && LastNode(nodeBuffers).CodePointNode?
              && (|ds| == 2 ==> LastNode(nodeBuffers).codePoint == Positional(ds, 16) && cursor == old(cursor) + 3)
              && (|ds| < 2 ==> LastNode(nodeBuffers) == CodePointNode('x' as int) && cursor == old(cursor) + 1)
      ensures Did(Pass, HexEscapeAt(codePoints, old(cursor)), old(nodeBuffers), unresolvedBackRefs)
    {
      cursor := cursor + 1;
      var number := ParseNumber(2, 2, 16);
      var value := 'x' as int;
      if number.Some? {
        ShortRunIsPositional(codePoints, cursor, 16, 2);
        cursor := cursor + |number.value.codePoints|;
        value := number.value.value;
      }
      Add(CodePointNode(value));
    }

    /**
     * `parseUnicodeEscapeSequence`: `\u{H...}` with any number of hex digits
     * (checked against `0x10ffff` after 32-bit accumulation) or `\uHHHH`;
     * anything else is an error in unicode mode and a literal `u` otherwise.
     */
    method ParseUnicodeEscapeSequence() returns (o: Outcome<ParseError>)
      requires Valid() && |nodeBuffers| >= 1 && At('u' as int)
      modifies this`cursor, this`nodeBuffers
      ensures Valid()
      ensures o.Pass? ==> AddedOne(old(nodeBuffers), nodeBuffers) && old(cursor) < cursor <= |codePoints|
      ensures o.Pass? ==> LastNode(nodeBuffers).CodePointNode? && LastNode(nodeBuffers).codePoint <= 0x10FFFF
      ensures o.Pass? && cursor == old(cursor) + 1 ==> !unicode && LastNode(nodeBuffers).CodePointNode? && LastNode(nodeBuffers).codePoint == 'u' as int
      ensures o.Fail? ==> (o.error.SyntaxError?
              && (o.error.kind == IncompleteUnicodeEscape || o.error.kind == UnicodeEscapeTooLarge))
      ensures var ds := DigitsAt(codePoints, old(cursor) + 1, 16, 4);
              !StartsWith(codePoints, old(cursor) + 1, ['{' as int]) && |ds| == 4 ==>
                o.Pass? && LastNode(nodeBuffers).codePoint == Positional(ds, 16) && cursor == old(cursor) + 5
      ensures Did(o, UnicodeEscapeAt(codePoints, old(cursor), unicode), old(nodeBuffers), unresolvedBackRefs)
    {
      ghost var s := UnicodeEscapeAt(codePoints, cursor, unicode);
      cursor := cursor + 1;
      var start := cursor;
      if Done() {
        o := Incomplete(start);
        return;
      }
      StartsWithOne(codePoints, cursor, '{' as int);
      var brace := ConsumeIf(['{' as int]);
      if brace {
        assert s == BracedEscapeAt(codePoints, start, unicode);
        o := ParseBracedEscape(start);
      } else {
        assert s == FourDigitEscapeAt(codePoints, start, unicode);
        o := ParseFourDigitEscape(start);
      }
    }

    /** `\u{H...}` after the brace. */
    method ParseBracedEscape(start: int) returns (o: Outcome<ParseError>)
      requires Valid() && |nodeBuffers| >= 1 && 0 < start && cursor == start + 1 <= |codePoints|
      modifies this`cursor, this`nodeBuffers
      ensures Valid()
      ensures Did(o, BracedEscapeAt(codePoints, start, unicode), old(nodeBuffers), unresolvedBackRefs)
    {
      var info := ParseNumber(1, INT_MAX, 16);
      if info.None? {
        o := Incomplete(start);
        return;
      }
      if info.value.value > 0x10FFFF {
        return Fail(Error(UnicodeEscapeTooLarge));
      }
      cursor := cursor + |info.value.codePoints|;
      StartsWithOne(codePoints, cursor, '}' as int);
      if Done() || codePoints[cursor] != '}' as int {
        o := Incomplete(start);
        return;
      }
      cursor := cursor + 1;
      Add(CodePointNode(info.value.value));
      return Pass;
    }

    /** `\uHHHH`, the cursor on the first digit. */
    method ParseFourDigitEscape(start: int) returns (o: Outcome<ParseError>)
      requires Valid() && |nodeBuffers| >= 1 && 0 < start == cursor <= |codePoints|
      modifies this`cursor, this`nodeBuffers
      ensures Valid()
      ensures o.Pass? ==> AddedOne(old(nodeBuffers), nodeBuffers) && start <= cursor <= |codePoints|
      ensures o.Pass? ==> LastNode(nodeBuffers).CodePointNode? && LastNode(nodeBuffers).codePoint <= 0x10FFFF
      ensures o.Pass? && cursor == start ==> !unicode && LastNode(nodeBuffers).CodePointNode? && LastNode(nodeBuffers).codePoint == 'u' as int
      ensures o.Fail? ==> o == Fail(SyntaxError(IncompleteUnicodeEscape, old(cursor)))
      ensures var ds := DigitsAt(codePoints, start, 16, 4);
              |ds| == 4 ==> o.Pass? && LastNode(nodeBuffers).codePoint == Positional(ds, 16) && cursor == start + 4
      ensures Did(o, FourDigitEscapeAt(codePoints, start, unicode), old(nodeBuffers), unresolvedBackRefs)
    {
      var info := ParseNumber(4, 4, 16);
      if info.None? {
        o := Incomplete(start);
        return;
      }
      ShortRunIsPositional(codePoints, cursor, 16, 4);
      cursor := cursor + |info.value.codePoints|;
      Add(CodePointNode(info.value.value));
      return Pass;
    }

    /** `incomplete()` of `parseUnicodeEscapeSequence` */
    method Incomplete(start: int) returns (o: Outcome<ParseError>)
      requires Valid() && |nodeBuffers| >= 1 && 0 < start <= |codePoints|
      modifies this`cursor, this`nodeBuffers
      ensures Valid()
      ensures unicode ==> o == Fail(SyntaxError(IncompleteUnicodeEscape, old(cursor)))
      ensures !unicode ==> o.Pass? && cursor == start && nodeBuffers == WithNode(old(nodeBuffers), CodePointNode('u' as int))
      ensures Did(o, IncompleteAt(old(cursor), start, unicode), old(nodeBuffers), unresolvedBackRefs)
    {
      if unicode {
        return Fail(Error(IncompleteUnicodeEscape));
      }
      cursor := start;
      Add(CodePointNode('u' as int));
      return Pass;
    }

    /**
     * `\p{...}` and `\P{...}`: a unicode class whose name the alias tables
     * normalise, negated for `\P`.
     */
    method ParseProperty() returns (o: Outcome<ParseError>)
      requires Valid() && |nodeBuffers| >= 1 && (At('p' as int) || At('P' as int))
      modifies this`cursor, this`nodeBuffers
      ensures Valid()
      ensures Did(o, PropertyAt(codePoints, old(cursor), propertyAliases, valueAliases), old(nodeBuffers), unresolvedBackRefs)
    {
      ghost var s := PropertyAt(codePoints, cursor, propertyAliases, valueAliases);
      StartsWithOne(codePoints, cursor + 1, '{' as int);
      var negate := codePoints[cursor] == 'P' as int;
      cursor := cursor + 1;
      var brace := ConsumeIf(['{' as int]);
      if brace {
        assert s == PropertyNameAt(codePoints, cursor, negate, propertyAliases, valueAliases);
        o := ParsePropertyName(negate);
      } else {
        assert s == Raise(ExpectedOpenBrace, cursor);
        o := Fail(Error(ExpectedOpenBrace));
      }
    }

    /** The braced name of `\p{name}`, the cursor after the `{`. */
    method ParsePropertyName(negate: bool) returns (o: Outcome<ParseError>)
      requires Valid() && |nodeBuffers| >= 1
      modifies this`cursor, this`nodeBuffers
      ensures Valid()
      ensures Did(o, PropertyNameAt(codePoints, old(cursor), negate, propertyAliases, valueAliases), old(nodeBuffers),
                  unresolvedBackRefs)
    {
      var text := ParseName('}' as int, true);
      if text.Failure? {
        return Fail(text.error);
      }
      var name := ClassName(text.value, propertyAliases, valueAliases);
      if name.Failure? {
        return Fail(Error(name.error));
      }
      var node := UnicodeClassNode(name.value);
      Add(if negate then NegateNode(node) else node);
      return Pass;
    }

    /**
     * `\k<name>` outside a class: a reference to a group that is resolved at
     * the end; `\k` without `<` is a literal `k`.
     */
    method ParseNamedReference() returns (o: Outcome<ParseError>)
      requires Valid() && |nodeBuffers| >= 1 && At('k' as int)
      modifies this`cursor, this`nodeBuffers, this`unresolvedBackRefs
      ensures Valid()
      ensures Did(o, NamedReferenceAt(codePoints, old(cursor)), old(nodeBuffers), old(unresolvedBackRefs))
    {
      cursor := cursor + 1;
      var angle := ConsumeIf(['<' as int]);
      if angle {
        o := ParseReferenceName();
      } else {
        Add(CodePointNode('k' as int));
        o := Pass;
      }
    }

    /** The name of `\k<name>`, the cursor after the `<`. */
    method ParseReferenceName() returns (o: Outcome<ParseError>)
      requires Valid() && |nodeBuffers| >= 1
      modifies this`cursor, this`nodeBuffers, this`unresolvedBackRefs
      ensures Valid()
      ensures Did(o, ReferenceNameAt(codePoints, old(cursor)), old(nodeBuffers), old(unresolvedBackRefs))
    {
      var name := ParseName('>' as int, false);
      if name.Failure? {
        return Fail(name.error);
      }
      Add(BackReferenceNode(SHORT_MIN, Some(name.value)));
      unresolvedBackRefs := unresolvedBackRefs + [name.value];
      return Pass;
    }

    // -------------------------------------------------------------------------
    // Groups and classes

    /** The chain of `consumeIf`s after `(`: the first prefix that matches is consumed. */
    method ConsumeGroupPrefix() returns (p: GroupPrefix)
      requires cursor >= 0
      modifies this`cursor
      ensures p == PrefixAt(codePoints, old(cursor)) && cursor == old(cursor) + PrefixLength(p)
    {
      var b := ConsumeIf(['?' as int, ':' as int]);
      if b {
        return NonCapturing;
      }
      b := ConsumeIf(['?' as int, '=' as int]);
      if b {
        return Look(PositiveLookahead);
      }
      b := ConsumeIf(['?' as int, '!' as int]);
      if b {
        return Look(NegativeLookahead);
      }
      b := ConsumeIf(['?' as int, '<' as int, '=' as int]);
      if b {
        return Look(PositiveLookbehind);
      }
      b := ConsumeIf(['?' as int, '<' as int, '!' as int]);
      if b {
        return Look(NegativeLookbehind);
      }
      b := ConsumeIf(['?' as int, '<' as int]);
      if b {
        return Named;
      }
      return Plain;
    }

    /** A `-` that starts a range: it is under the cursor and is not followed by `]`. */
    predicate AtRangeDash()
      reads this
    {
      RangeDashAt(codePoints, cursor)
    }

    /**
     * `[...]` with the cursor on `[`: the members up to `]` in a class node,
     * inverted after `[^` (which also skips the code point after the `^`).
     */
    method ParseClass() returns (o: Outcome<ParseError>)
      requires Valid() && |nodeBuffers| >= 1 && At('[' as int)
      modifies this`cursor, this`nodeBuffers, this`unresolvedBackRefs
      ensures Valid() && unresolvedBackRefs == old(unresolvedBackRefs)
      ensures Did(o, ClassAt(codePoints, old(cursor), Settings()), old(nodeBuffers), old(unresolvedBackRefs))
    {
      // the `[`, then a `^` and the code point after it
      var inverted := cursor + 1 < |codePoints| && codePoints[cursor + 1] == '^' as int;
      cursor := cursor + (if inverted then 3 else 1);
      o := ParseClassMembers();
      if o.Fail? {
        return;
      }
      StartsWithOne(codePoints, cursor, ']' as int);
      o := CloseClass(inverted);
    }

    /**
     * The members of a class from the cursor up to a `]` or the end, each
     * added to a new innermost buffer; the first member that fails stops them.
     */
    method ParseClassMembers() returns (o: Outcome<ParseError>)
      requires Valid() && |nodeBuffers| >= 1
      modifies this`cursor, this`nodeBuffers, this`unresolvedBackRefs
      ensures Valid() && unresolvedBackRefs == old(unresolvedBackRefs)
      ensures o.Pass? ==> |nodeBuffers| == |old(nodeBuffers)| + 1 && Below(nodeBuffers) == old(nodeBuffers)
      ensures var r := ClassMembersAt(codePoints, old(cursor), Settings());
              && (r.Failure? ==> o == Fail(r.error))
              && (r.Success? ==> o.Pass? && Top(nodeBuffers) == r.value.0 && cursor == r.value.1)
    {
      PushNodeBuffer();
      ghost var first := cursor;
      PrependedNothing(ClassMembersAt(codePoints, cursor, Settings()));
      o := Pass;
      while !Done() && codePoints[cursor] != ']' as int
        invariant Valid() && unresolvedBackRefs == old(unresolvedBackRefs)
        invariant |nodeBuffers| == |old(nodeBuffers)| + 1 && Below(nodeBuffers) == old(nodeBuffers)
        invariant first <= cursor && o.Pass?
        invariant forall k | 0 <= k < |Top(nodeBuffers)| :: ClassMember(Top(nodeBuffers)[k])
        invariant ClassMembersAt(codePoints, first, Settings())
                  == Prepended(Top(nodeBuffers), ClassMembersAt(codePoints, cursor, Settings()))
        decreases |codePoints| - cursor
      {
        ghost var c := cursor;
        ghost var members := Top(nodeBuffers);
        o := ParseClassMember();
        if o.Fail? {
          return;
        }
        ghost var n := LastNode(nodeBuffers);
        assert ClassMembersAt(codePoints, c, Settings()) == Prepended([n], ClassMembersAt(codePoints, cursor, Settings()));
        PrependedTwice(members, n, ClassMembersAt(codePoints, cursor, Settings()));
      }
      ghost var rest := ClassMembersAt(codePoints, cursor, Settings());
      assert rest.Success? && rest.value.0 == [] && rest.value.1 == cursor;
      assert Top(nodeBuffers) + [] == Top(nodeBuffers);
    }

    /** The `]` of a class, which closes the innermost buffer into the class node. */
    method CloseClass(inverted: bool) returns (o: Outcome<ParseError>)
      requires Valid() && |nodeBuffers| >= 2
      requires forall k | 0 <= k < |Top(nodeBuffers)| :: ClassMember(Top(nodeBuffers)[k])
      modifies this`cursor, this`nodeBuffers
      ensures Valid()
      ensures o.Fail? <==> !StartsWith(codePoints, old(cursor), [']' as int])
      ensures o.Fail? ==> o == Fail(SyntaxError(ExpectedCloseBracket, old(cursor))) && nodeBuffers == old(nodeBuffers)
      ensures o.Pass? ==> && cursor == old(cursor) + 1
                          && var members := Top(old(nodeBuffers));
                             nodeBuffers == WithNode(Below(old(nodeBuffers)),
                                                     if inverted then InvertedCharacterClassNode(members) else CharacterClassNode(members))
    {
      var closed := ConsumeIf([']' as int]);
      if !closed {
        return Fail(Error(ExpectedCloseBracket));
      }
      var members := PopNodeBuffer();
      Add(if inverted then InvertedCharacterClassNode(members) else CharacterClassNode(members));
      return Pass;
    }

    /**
     * One member of a class: an escape, a code point, or a range `a-b` of
     * two code points, which must be in order and collapses to `a` when
     * `a == b`.
     */
    method ParseClassMember() returns (o: Outcome<ParseError>)
      requires Valid() && |nodeBuffers| >= 1 && 0 <= cursor < |codePoints|
      requires forall k | 0 <= k < |Top(nodeBuffers)| :: ClassMember(Top(nodeBuffers)[k])
      modifies this`cursor, this`nodeBuffers, this`unresolvedBackRefs
      ensures Valid() && unresolvedBackRefs == old(unresolvedBackRefs)
      ensures o.Pass? ==> AddedOne(old(nodeBuffers), nodeBuffers) && old(cursor) < cursor <= |codePoints|
                          && ClassMember(LastNode(nodeBuffers))
      ensures o.Pass? ==> forall k | 0 <= k < |Top(nodeBuffers)| :: ClassMember(Top(nodeBuffers)[k])
      ensures var c := old(cursor);
              c + 2 < |codePoints| && codePoints[c] != '\\' as int && codePoints[c + 1] == '-' as int
              && codePoints[c + 2] != ']' as int && codePoints[c + 2] != '\\' as int ==>
                && (codePoints[c] > codePoints[c + 2] ==> o == Fail(SyntaxError(RangeOutOfOrder, c + 3)))
                && (codePoints[c] == codePoints[c + 2] ==>
                      o.Pass? && LastNode(nodeBuffers).CodePointNode? && LastNode(nodeBuffers).codePoint == codePoints[c])
                && (codePoints[c] < codePoints[c + 2] ==>
                      o.Pass? && LastNode(nodeBuffers).CodePointRangeNode?
                      && LastNode(nodeBuffers).start == codePoints[c] && LastNode(nodeBuffers).end == codePoints[c + 2])
      ensures var c := old(cursor);
              c + 3 < |codePoints| && codePoints[c] == '\\' as int
              && SimpleEscape(codePoints[c + 1], true).Some? && !SimpleEscape(codePoints[c + 1], true).value.CodePointNode?
              && codePoints[c + 2] == '-' as int && codePoints[c + 3] != ']' as int ==>
                o == Fail(SyntaxError(InvalidRangeMember, c + 2))
      ensures Did(o, ClassMemberAt(codePoints, old(cursor), Settings()), old(nodeBuffers), old(unresolvedBackRefs))
    {
      var start: int;
      if codePoints[cursor] == '\\' as int {
        var escape := ParseClassEscape();
        if escape.Failure? {
          return Fail(escape.error);
        }
        var n := escape.value;
        if !AtRangeDash() {
          Add(n);
          return Pass;
        }
        if !n.CodePointNode? {
          return Fail(Error(InvalidRangeMember));
        }
        start := n.codePoint;
      } else {
        start := codePoints[cursor];
        cursor := cursor + 1;
        if !AtRangeDash() {
          Add(CodePointNode(start));
          return Pass;
        }
      }
      o := ParseRangeEnd(start);
    }

    /** An escape inside a class, read and taken back off the buffer. */
    method ParseClassEscape() returns (r: Result<ASTNode, ParseError>)
      requires Valid() && |nodeBuffers| >= 1 && At('\\' as int)
      modifies this`cursor, this`nodeBuffers, this`unresolvedBackRefs
      ensures Valid() && unresolvedBackRefs == old(unresolvedBackRefs)
      ensures r.Success? ==> nodeBuffers == old(nodeBuffers) && old(cursor) < cursor <= |codePoints|
                             && ClassMember(r.value)
      ensures old(cursor) + 1 < |codePoints| && SimpleEscape(codePoints[old(cursor) + 1], true).Some? ==>
                r == Success(SimpleEscape(codePoints[old(cursor) + 1], true).value) && cursor == old(cursor) + 2
      ensures var e := EscapeAt(codePoints, old(cursor) + 1, true, Settings());
              r == e.result && (r.Success? ==> cursor == e.next)
    {
      ghost var before := nodeBuffers;
      var o := ParseEscape(true);
      if o.Fail? {
        return Failure(o.error);
      }
      var n := PopNode();
      WithNodeInjective(nodeBuffers, before, n, n);
      return Success(n);
    }

    /** After the start `start` of a range, with the cursor on the `-`. */
    method ParseRangeEnd(start: int32) returns (o: Outcome<ParseError>)
      requires Valid() && |nodeBuffers| >= 1 && AtRangeDash()
      requires forall k | 0 <= k < |Top(nodeBuffers)| :: ClassMember(Top(nodeBuffers)[k])
      modifies this`cursor, this`nodeBuffers, this`unresolvedBackRefs
      ensures Valid() && unresolvedBackRefs == old(unresolvedBackRefs)
      ensures o.Pass? ==> AddedOne(old(nodeBuffers), nodeBuffers) && old(cursor) < cursor <= |codePoints|
                          && ClassMember(LastNode(nodeBuffers))
      ensures o.Pass? ==> forall k | 0 <= k < |Top(nodeBuffers)| :: ClassMember(Top(nodeBuffers)[k])
      ensures var c := old(cursor);
              c + 1 < |codePoints| && codePoints[c + 1] != '\\' as int ==>
                && (start > codePoints[c + 1] ==> o == Fail(SyntaxError(RangeOutOfOrder, c + 2)))
                && (start == codePoints[c + 1] ==>
                      o.Pass? && LastNode(nodeBuffers).CodePointNode? && LastNode(nodeBuffers).codePoint == start)
                && (start < codePoints[c + 1] ==>
                      o.Pass? && LastNode(nodeBuffers).CodePointRangeNode?
                      && LastNode(nodeBuffers).start == start && LastNode(nodeBuffers).end == codePoints[c + 1])
      ensures Did(o, RangeEndAt(codePoints, old(cursor), start, Settings()), old(nodeBuffers), old(unresolvedBackRefs))
    {
      cursor := cursor + 1;
      if Done() {
        // `codePoint` past the end
        return Fail(Internal(IndexOutOfBounds));
      }
      var end: int;
      if codePoints[cursor] == '\\' as int {
        var escape := ParseClassEscape();
        if escape.Failure? {
          return Fail(escape.error);
        }
        var n := escape.value;
        if !n.CodePointNode? {
          return Fail(Error(InvalidRangeMember));
        }
        end := n.codePoint;
      } else {
        end := codePoints[cursor];
        cursor := cursor + 1;
      }
      o := AddRange(start, end);
    }

    /** The range `start-end` as a member: out of order, one code point, or a range. */
    method AddRange(start: int32, end: int32) returns (o: Outcome<ParseError>)
      requires Valid() && |nodeBuffers| >= 1
      requires forall k | 0 <= k < |Top(nodeBuffers)| :: ClassMember(Top(nodeBuffers)[k])
      modifies this`nodeBuffers
      ensures start > end ==> o == Fail(SyntaxError(RangeOutOfOrder, cursor))
      ensures o.Pass? ==> AddedOne(old(nodeBuffers), nodeBuffers) && ClassMember(LastNode(nodeBuffers))
      ensures o.Pass? ==> forall k | 0 <= k < |Top(nodeBuffers)| :: ClassMember(Top(nodeBuffers)[k])
      ensures start == end ==>
                o.Pass? && LastNode(nodeBuffers).CodePointNode? && LastNode(nodeBuffers).codePoint == start
      ensures start < end ==>
                o.Pass? && LastNode(nodeBuffers).CodePointRangeNode?
                && LastNode(nodeBuffers).start == start && LastNode(nodeBuffers).end == end
      ensures Did(o, RangeAt(start, end, cursor), old(nodeBuffers), unresolvedBackRefs)
    {
      if start > end {
        return Fail(Error(RangeOutOfOrder));
      }
      if start == end {
        Add(CodePointNode(start));
      } else {
        Add(CodePointRangeNode(start, end));
      }
      return Pass;
    }

    /**
     * Opens a capturing group: `groupNames.add`, `nextGroupIndex++` and the
     * `namedGroups` entry for a named one.
     */
    method OpenGroup(name: Option<string>) returns (index: int16)
      requires GroupsValid() && (name.Some? ==> name.value !in groupNames)
      modifies this`nextGroupIndex, this`namedGroups, this`groupNames, this`groups
      ensures GroupsValid() && groups == old(groups) + [name]
      ensures index == ToShort(|old(groups)| + 1)
    {
      GroupLogAppend(groups, name);
      ToShortStep(|groups| + 1);
      index := nextGroupIndex;
      if name.Some? {
        groupNames := groupNames + {name.value};
        namedGroups := Put(namedGroups, index, name.value);
      }
      nextGroupIndex := ToShort(nextGroupIndex as int + 1);
      groups := groups + [name];
      assert nextGroupIndex == ToShort(|groups| + 1);
      assert namedGroups == NamedGroupsOf(groups) && groupNames == NamesOf(groups);
    }

    /**
     * The bookkeeping of the prefix `p` just consumed: a named group reads
     * its name up to `>` and must not reuse one; named and plain groups
     * take the next index.
     */
    method OpenGroupFor(p: GroupPrefix) returns (r: Result<Option<int16>, ParseError>)
      requires Valid()
      modifies this`cursor, this`nextGroupIndex, this`namedGroups, this`groupNames, this`groups
      ensures Valid() && Extends(old(groups), groups)
      ensures (p == NonCapturing || p.Look?) ==> r == Success(None) && groups == old(groups) && cursor == old(cursor)
      ensures p == Plain ==> r == Success(Some(ToShort(|old(groups)| + 1))) && groups == old(groups) + [None]
                             && cursor == old(cursor)
      ensures var name := ScannedName(codePoints, old(cursor), '>' as int);
              p == Named ==>
                && (name.Some? && name.value in NamesOf(old(groups)) ==>
                      r == Failure(SyntaxError(DuplicateGroupName, FindFrom(codePoints, old(cursor), '>' as int) + 1)))
                && (r.Success? ==> name.Some? && r.value == Some(ToShort(|old(groups)| + 1)) && groups == old(groups) + [name])
    {
      if p == Named {
        var name := ParseName('>' as int, false);
        if name.Failure? {
          return Failure(name.error);
        }
        ScannedNameIs(codePoints, old(cursor), '>' as int, name.value);
        if name.value in groupNames {
          return Failure(Error(DuplicateGroupName));
        }
        var index := OpenGroup(Some(name.value));
        return Success(Some(index));
      } else if p == Plain {
        var index := OpenGroup(None);
        return Success(Some(index));
      }
      return Success(None);
    }

    /**
     * `(` ... `)` with the cursor on `(`: the prefix decides the node; named
     * and plain groups take the next index, in opening order.
     */
    method ParseGroup() returns (o: Outcome<ParseError>)
      requires Valid() && |nodeBuffers| >= 1 && At('(' as int)
      modifies this
      ensures Valid() && fuel <= old(fuel) && Extends(old(groups), groups)
      ensures o.Pass? ==> AddedOne(old(nodeBuffers), nodeBuffers) && 0 < cursor <= |codePoints| && codePoints[cursor - 1] == ')' as int
      ensures var p := PrefixAt(codePoints, old(cursor) + 1);
              o.Pass? ==> var n := LastNode(nodeBuffers);
                && (p == NonCapturing ==> n.GroupNode? && n.index == None)
                && (p.Look? ==> n.LookNode? && n.kind == p.kind && |n.nodes| >= 1 && n.nodes[|n.nodes| - 1] == MatchNode)
                && ((p == Named || p == Plain) ==>
                      && |groups| > |old(groups)|
                      && n.GroupNode? && n.index == Some(ToShort(|old(groups)| + 1))
                      && groups[|old(groups)|].Some? == (p == Named))
      decreases fuel, 3
    {
      ghost var groups0, buffers0 := groups, nodeBuffers;
      var head := BeginGroup();
      if head.Failure? {
        return Fail(head.error);
      }
      ghost var groups1 := groups;
      assert Below(nodeBuffers) == buffers0;
      o := CloseGroup(head.value.0, head.value.1);
      assert |groups1| > |groups0| ==> groups[|groups0|] == groups1[..|groups1|][|groups0|];
    }

    /**
     * The head of a group: past the `(`, a fresh innermost buffer, the
     * prefix read, and the group head when it captures.
     */
    method BeginGroup() returns (r: Result<(GroupPrefix, Option<int16>), ParseError>)
      requires Valid() && At('(' as int)
      modifies this`cursor, this`nodeBuffers, this`nextGroupIndex, this`namedGroups, this`groupNames, this`groups
      ensures Valid() && Extends(old(groups), groups)
      ensures r.Success? ==>
                && nodeBuffers == old(nodeBuffers) + [[]]
                && r.value.0 == PrefixAt(codePoints, old(cursor) + 1)
                && (r.value.0 == NonCapturing || r.value.0.Look? ==> r.value.1 == None)
                && (r.value.0 == Named || r.value.0 == Plain ==>
                      && |groups| == |old(groups)| + 1
                      && r.value.1 == Some(ToShort(|old(groups)| + 1))
                      && groups[|old(groups)|].Some? == (r.value.0 == Named))
    {
      cursor := cursor + 1;
      PushNodeBuffer();
      var p := ConsumeGroupPrefix();
      var index := OpenGroupFor(p);
      if index.Failure? {
        return Failure(index.error);
      }
      return Success((p, index.value));
    }

    /**
     * The body of a group up to its `)`, which closes the innermost buffer
     * into the group's node.
     */
    method CloseGroup(p: GroupPrefix, index: Option<int16>) returns (o: Outcome<ParseError>)
      requires Valid() && |nodeBuffers| >= 2
      modifies this
      ensures Valid() && fuel <= old(fuel) && Extends(old(groups), groups)
      ensures o.Pass? ==> && AddedOne(Below(old(nodeBuffers)), nodeBuffers)
                          && 0 < cursor <= |codePoints| && codePoints[cursor - 1] == ')' as int
                          && exists body :: LastNode(nodeBuffers) == GroupOf(p, index, body)
      ensures o.Pass? ==> var n := LastNode(nodeBuffers);
                && (p.Look? ==> n.LookNode? && n.kind == p.kind && |n.nodes| >= 1 && n.nodes[|n.nodes| - 1] == MatchNode)
                && (!p.Look? ==> n.GroupNode? && n.index == (if p == NonCapturing then None else index))
      decreases fuel, 2
    {
      o := ParseSequence();
      if o.Fail? {
        return;
      }
      var closed := ConsumeIf([')' as int]);
      if !closed {
        return Fail(Error(ExpectedCloseParen));
      }
      var body := PopNodeBuffer();
      var node := GroupOf(p, index, body);
      Add(node);
      assert LastNode(nodeBuffers) == node;
      return Pass;
    }

    /**
     * `while (!done && codePoint != ')') parseSingle()`: atoms into the
     * innermost buffer up to a `)` or the end.
     */
    method ParseSequence() returns (o: Outcome<ParseError>)
      requires Valid() && |nodeBuffers| >= 1
      modifies this
      ensures Valid() && fuel <= old(fuel) && Extends(old(groups), groups)
      ensures o.Pass? ==> && |nodeBuffers| == |old(nodeBuffers)| && Below(nodeBuffers) == Below(old(nodeBuffers))
                          && cursor >= 0 && (cursor < |codePoints| ==> codePoints[cursor] == ')' as int)
      decreases fuel, 1
    {
      while !Done() && codePoints[cursor] != ')' as int
        invariant Valid() && Extends(old(groups), groups) && fuel <= old(fuel)
        invariant |nodeBuffers| == |old(nodeBuffers)| && Below(nodeBuffers) == Below(old(nodeBuffers))
        decreases fuel
      {
        o := ParseSingle();
        if o.Fail? {
          return;
        }
      }
      return Pass;
    }

    /**
     * `parseNode`: one atom at the cursor, added to the innermost buffer.
     * Quantifier characters, `)` and `/` may not stand alone.
     */
    method ParseNode() returns (o: Outcome<ParseError>)
      requires Valid() && |nodeBuffers| >= 1 && !Done()
      modifies this
      ensures Valid() && fuel <= old(fuel) && Extends(old(groups), groups)
      ensures o.Pass? ==> AddedOne(old(nodeBuffers), nodeBuffers)
      ensures var cp := codePoints[old(cursor)];
              && (cp == '^' as int ==> o.Pass? && LastNode(nodeBuffers) == StartNode && cursor == old(cursor) + 1)
              && (cp == '$' as int ==> o.Pass? && LastNode(nodeBuffers) == EndNode && cursor == old(cursor) + 1)
              && (cp == '.' as int ==> o.Pass? && LastNode(nodeBuffers) == AnyNode && cursor == old(cursor) + 1)
              && (RequiresEscape(cp) && cp != '(' as int && cp != '[' as int ==>
                    o == Fail(SyntaxError(UnescapedChar, old(cursor))))
              && (!RequiresEscape(cp) && cp !in ['\\' as int, '^' as int, '$' as int, '.' as int] ==>
                    o.Pass? && LastNode(nodeBuffers).CodePointNode? && LastNode(nodeBuffers).codePoint == cp
                    && cursor == old(cursor) + 1)
      ensures codePoints[old(cursor)] == '[' as int ==>
                Did(o, ClassAt(codePoints, old(cursor), Settings()), old(nodeBuffers), old(unresolvedBackRefs))
      ensures codePoints[old(cursor)] == '\\' as int ==>
                Did(o, EscapeAt(codePoints, old(cursor) + 1, false, Settings()), old(nodeBuffers), old(unresolvedBackRefs))
      decreases fuel, 4
    {
      var cp := codePoints[cursor];
      if cp == '(' as int {
        o := ParseGroup();
      } else if cp == '[' as int {
        o := ParseClass();
      } else if cp == '\\' as int {
        o := ParseEscape(false);
      } else if cp == '^' as int || cp == '$' as int || cp == '.' as int {
        cursor := cursor + 1;
        Add(if cp == '^' as int then StartNode else if cp == '$' as int then EndNode else AnyNode);
        o := Pass;
      } else if RequiresEscape(cp) {
        o := Fail(Error(UnescapedChar));
      } else {
        Add(CodePointNode(cp));
        cursor := cursor + 1;
        o := Pass;
      }
    }

    /**
     * `parseSingle`: an atom followed by any number of quantifiers and
     * alternations. Each call takes one unit of fuel.
     */
    method ParseSingle() returns (o: Outcome<ParseError>)
      requires Valid() && |nodeBuffers| >= 1 && !Done()
      modifies this
      ensures Valid() && fuel <= old(fuel) && Extends(old(groups), groups)
      ensures o.Pass? ==> SameDepth(old(nodeBuffers), nodeBuffers) && fuel < old(fuel)
      decreases fuel, 0
    {
      o := Tick();
      if o.Fail? {
        return;
      }
      o := ParseNode();
      if o.Fail? {
        return;
      }
      while true
        invariant Valid() && fuel < old(fuel) && Extends(old(groups), groups)
        invariant SameDepth(old(nodeBuffers), nodeBuffers)
        decreases fuel
      {
        var more := TryParseSecondary();
        if more.Failure? {
          return Fail(more.error);
        }
        if !more.value {
          break;
        }
      }
      return Pass;
    }

    /**
     * `tryParseSecondary`: a quantifier or `|` after the last node; false
     * when there is none. Each handled case takes one unit of fuel.
     */
    method TryParseSecondary() returns (r: Result<bool, ParseError>)
      requires Valid() && |nodeBuffers| >= 1 && |Top(nodeBuffers)| >= 1
      modifies this
      ensures Valid() && fuel <= old(fuel) && Extends(old(groups), groups)
      ensures r.Success? ==> SameDepth(old(nodeBuffers), nodeBuffers)
      ensures r == Success(true) ==> fuel < old(fuel)
      ensures old(cursor) >= |codePoints| ==> r == Success(false) && nodeBuffers == old(nodeBuffers)
      ensures old(cursor) < |codePoints| && codePoints[old(cursor)] !in ['?' as int, '*' as int, '+' as int, '|' as int, '{' as int] ==>
                r == Success(false) && nodeBuffers == old(nodeBuffers) && cursor == old(cursor)
      ensures && old(cursor) < |codePoints| && old(fuel) == 0
              && codePoints[old(cursor)] in ['?' as int, '*' as int, '+' as int, '|' as int, '{' as int]
              ==> r == Failure(OutOfFuel)
      ensures old(cursor) < |codePoints| && codePoints[old(cursor)] in ['?' as int, '*' as int, '+' as int] && old(fuel) > 0 ==>
                var target := LastNode(old(nodeBuffers));
                var lazy := StartsWith(codePoints, old(cursor) + 1, ['?' as int]);
                && (IsQuantifier(target) ==> r == Failure(SyntaxError(InvalidQuantifier, old(cursor) + 1)))
                && (!IsQuantifier(target) ==>
                      && r == Success(true)
                      && nodeBuffers == ReplaceLast(old(nodeBuffers), QuantifierOf(codePoints[old(cursor)], target, lazy))
                      && cursor == old(cursor) + (if lazy then 2 else 1))
      ensures old(cursor) < |codePoints| && codePoints[old(cursor)] == '{' as int && old(fuel) > 0 ==>
                RepetitionDone(r, old(cursor), old(nodeBuffers))
      decreases fuel, 1
    {
      if Done() {
        return Success(false);
      }
      var cp := codePoints[cursor];
      if cp !in ['?' as int, '*' as int, '+' as int, '|' as int, '{' as int] {
        return Success(false);
      }
      var tick := Tick();
      if tick.Fail? {
        return Failure(tick.error);
      }
      if cp == '|' as int {
        r := ParseAlternation();
      } else if cp == '{' as int {
        r := ParseRepetition();
      } else {
        var o := ParseQuantifier();
        if o.Fail? {
          return Failure(o.error);
        }
        return Success(true);
      }
    }

    /** `?`, `*` or `+` (each optionally followed by a lazy `?`) around the last node. */
    method ParseQuantifier() returns (o: Outcome<ParseError>)
      requires Valid() && |nodeBuffers| >= 1 && |Top(nodeBuffers)| >= 1 && 0 <= cursor < |codePoints|
      requires codePoints[cursor] in ['?' as int, '*' as int, '+' as int]
      modifies this`cursor, this`nodeBuffers
      ensures Valid()
      ensures var target := LastNode(old(nodeBuffers));
              var lazy := StartsWith(codePoints, old(cursor) + 1, ['?' as int]);
              && (IsQuantifier(target) ==> o == Fail(SyntaxError(InvalidQuantifier, old(cursor) + 1)))
              && (!IsQuantifier(target) ==>
                    && o.Pass?
                    && nodeBuffers == ReplaceLast(old(nodeBuffers), QuantifierOf(codePoints[old(cursor)], target, lazy))
                    && cursor == old(cursor) + (if lazy then 2 else 1))
    {
      var cp := codePoints[cursor];
      cursor := cursor + 1;
      var target := PopNode();
      if IsQuantifier(target) {
        return Fail(Error(InvalidQuantifier));
      }
      StartsWithOne(codePoints, cursor, '?' as int);
      var lazy := ConsumeIf(['?' as int]);
      Add(QuantifierOf(cp, target, lazy));
      return Pass;
    }

    /**
     * `|`: the innermost buffer so far becomes the left side; the right side
     * runs to `)` or the end; the buffer is left holding the alternation.
     */
    method ParseAlternation() returns (r: Result<bool, ParseError>)
      requires Valid() && |nodeBuffers| >= 1 && At('|' as int)
      modifies this
      ensures Valid() && fuel <= old(fuel) && Extends(old(groups), groups)
      ensures r.Success? ==> && r.value
                             && |nodeBuffers| == |old(nodeBuffers)| && Below(nodeBuffers) == Below(old(nodeBuffers))
                             && |Top(nodeBuffers)| == 1 && LastNode(nodeBuffers).AlternationNode?
                             && LastNode(nodeBuffers).lhs == AlternativeOf(Top(old(nodeBuffers)))
                             && LastNode(nodeBuffers).rhs.GroupNode?
                             && (cursor < |codePoints| ==> codePoints[cursor] == ')' as int)
      decreases fuel, 2
    {
      cursor := cursor + 1;
      var left := PopNodeBuffer();
      PushNodeBuffer();
      var o := ParseSequence();
      if o.Fail? {
        return Failure(o.error);
      }
      var right := PopNodeBuffer();
      PushNodeBuffer();
      Add(AlternationNode(AlternativeOf(left), AlternativeOf(right)));
      return Success(true);
    }

    /**
     * `{m}`, `{m,}` or `{m,n}` (optionally lazy) around the last node; when
     * the bounds are incomplete, a literal `{` is added and the cursor is
     * set to the value of the code point after the `{`.
     */
    method ParseRepetition() returns (r: Result<bool, ParseError>)
      requires Valid() && |nodeBuffers| >= 1 && |Top(nodeBuffers)| >= 1 && At('{' as int)
      modifies this`cursor, this`nodeBuffers
      ensures Valid()
      ensures r.Success? ==> SameDepth(old(nodeBuffers), nodeBuffers)
      ensures old(cursor) + 1 == |codePoints| ==> r == Failure(Internal(IndexOutOfBounds))
      ensures r == Success(false) ==>
                && old(cursor) + 1 < |codePoints| && cursor == codePoints[old(cursor) + 1]
                && nodeBuffers == WithNode(old(nodeBuffers), CodePointNode('{' as int))
      ensures old(cursor) + 1 < |codePoints| && DigitsAt(codePoints, old(cursor) + 1, 10, 8) == [] ==> r == Success(false)
      ensures r == Success(true) ==>
                var n := LastNode(nodeBuffers);
                && nodeBuffers == ReplaceLast(old(nodeBuffers), n)
                && n.RepetitionNode? && n.node == LastNode(old(nodeBuffers)) && !IsQuantifier(n.node)
                && n.min as int == Accumulate(DigitsAt(codePoints, old(cursor) + 1, 10, 8), 10)
                && 0 <= n.min && (n.max.Some? ==> n.min <= n.max.value)
      ensures RepetitionDone(r, old(cursor), old(nodeBuffers))
    {
      cursor := cursor + 1;
      if Done() {
        // `codePoint` past the end
        return Failure(Internal(IndexOutOfBounds));
      }
      var start := codePoints[cursor];
      var bounds := ReadBounds();
      if bounds.None? {
        r := IncompleteBrace(start);
        return;
      }
      r := AddRepetition(bounds.value.0, bounds.value.1);
    }

    /**
     * The tail of the `{` case once the bounds are read: the order check, the
     * quantifier-target check, and the repetition replacing the last node.
     */
    method AddRepetition(min: int, max: Option<int>) returns (r: Result<bool, ParseError>)
      requires Valid() && |nodeBuffers| >= 1 && |Top(nodeBuffers)| >= 1
      requires 0 <= min && (max.Some? ==> 0 <= max.value)
      modifies this`cursor, this`nodeBuffers
      ensures Valid()
      ensures r.Success? ==> r.value && SameDepth(old(nodeBuffers), nodeBuffers)
      ensures max.Some? && min > max.value ==> r == Failure(Error(QuantifierOutOfOrder))
      ensures r.Success? ==>
                var n := LastNode(nodeBuffers);
                && nodeBuffers == ReplaceLast(old(nodeBuffers), n)
                && n.RepetitionNode? && n.node == LastNode(old(nodeBuffers)) && !IsQuantifier(n.node)
                && n.min as int == min && (n.max.Some? ==> n.min <= n.max.value)
      ensures Repeated(r, RepetitionOf(codePoints, LastNode(old(nodeBuffers)), min, max, old(cursor)), old(cursor),
                       old(nodeBuffers))
    {
      if max.Some? && min > max.value {
        return Failure(Error(QuantifierOutOfOrder));
      }
      var target := PopNode();
      if IsQuantifier(target) {
        return Failure(Error(InvalidQuantifier));
      }
      if !(min < SHORT_MAX) || (max.Some? && !(max.value < SHORT_MAX)) {
        return Failure(Internal(ExpectationError));
      }
      StartsWithOne(codePoints, cursor, '?' as int);
      var lazy := ConsumeIf(['?' as int]);
      Add(RepetitionNode(target, ToShort(min), if max.Some? then Some(ToShort(max.value)) else None, lazy));
      return Success(true);
    }

    /**
     * The bounds of `{m}`, `{m,}` or `{m,n}` up to and including the `}`,
     * the cursor on the first digit; None when they are incomplete.
     */
    method ReadBounds() returns (b: Option<(int, Option<int>)>)
      requires 0 <= cursor < |codePoints|
      modifies this`cursor
      ensures cursor >= 0
      ensures var bounds := BoundsAt(codePoints, old(cursor));
              && (b.None? <==> bounds.None?)
              && (b.Some? ==> b.value == (bounds.value.min, bounds.value.max) && cursor == bounds.value.next)
    {
      var first := ReadBound();
      if first.None? {
        return None;
      }
      var min := first.value;
      if Done() {
        return None;
      }
      var max := ReadUpperBound(min);
      var closed := ConsumeIf(['}' as int]);
      if !closed {
        return None;
      }
      return Some((min, max));
    }

    /** The upper bound: the lower one, none after a bare `,`, or the number after `,`. */
    method ReadUpperBound(min: int) returns (max: Option<int>)
      requires 0 <= cursor <= |codePoints|
      modifies this`cursor
      ensures (max, cursor) == UpperBoundAt(codePoints, min, old(cursor))
    {
      var comma := ConsumeIf([',' as int]);
      if !comma {
        return Some(min);
      }
      max := ReadBound();
    }

    /**
     * `parseNumber(1, 8, base = 10)?.let { it.consume(); it.value }`: the
     * value of up to eight decimal digits, stepped over; none when there is
     * no digit.
     */
    method ReadBound() returns (v: Option<int>)
      requires 0 <= cursor <= |codePoints|
      modifies this`cursor
      ensures var ds := DigitsAt(codePoints, old(cursor), 10, 8);
              && v == (if ds == [] then None else Some(Accumulate(ds, 10)))
              && cursor == old(cursor) + |ds| <= |codePoints|
      ensures v.Some? ==> 0 <= v.value < 100_000_000
    {
      BoundBelow(codePoints, cursor);
      var number := ParseNumber(1, 8, 10);
      if number.None? {
        return None;
      }
      cursor := cursor + |number.value.codePoints|;
      return Some(number.value.value);
    }

    /** `incomplete()` of the `{` case: a literal `{`, and the cursor set to `start`. */
    method IncompleteBrace(start: int) returns (r: Result<bool, ParseError>)
      requires Valid() && |nodeBuffers| >= 1 && start >= 0
      modifies this`cursor, this`nodeBuffers
      ensures Valid() && r == Success(false) && cursor == start
      ensures nodeBuffers == WithNode(old(nodeBuffers), CodePointNode('{' as int))
    {
      cursor := start;
      Add(CodePointNode('{' as int));
      return Success(false);
    }

    /**
     * The final pass of `parse` over the `\\k<name>` references, in
     * source order.
     */
    method CheckReferences() returns (o: Outcome<ParseError>)
      ensures o == ReferenceCheck(unresolvedBackRefs, groupNames, namedGroups, cursor)
    {
      for k := 0 to |unresolvedBackRefs|
        invariant ReferenceCheck(unresolvedBackRefs, groupNames, namedGroups, cursor)
                  == ReferenceCheck(unresolvedBackRefs[k..], groupNames, namedGroups, cursor)
      {
        var name := unresolvedBackRefs[k];
        assert unresolvedBackRefs[k..][1..] == unresolvedBackRefs[k + 1..];
        if name !in groupNames {
          return Fail(Error(UnknownGroupName));
        }
        if FirstKeyOf(namedGroups, name).None? {
          return Fail(Internal(NoSuchElement));
        }
      }
      return Pass;
    }

    /**
     * `parse`: atoms until the input is used up, then the reference pass;
     * the root holds the top-level nodes and a final `MatchNode`, with every
     * awaiting reference given its group's index, and goes through the
     * optimizer.
     */
    method Parse() returns (r: Result<ASTNode, ParseError>)
      requires Valid() && nodeBuffers == [] && groups == [] && unresolvedBackRefs == []
      modifies this
      ensures Valid()
      ensures r.Success? ==>
                && nodeBuffers == [] && Done()
                && ReferenceCheck(unresolvedBackRefs, NamesOf(groups), NamedGroupsOf(groups), cursor) == Pass
                && forall k | 0 <= k < |unresolvedBackRefs| :: unresolvedBackRefs[k] in NamesOf(groups)
      ensures r.Success? ==>
                exists nodes :: r.value == Optimizer.Optimize(
                  RootNode(NamedGroupsOf(groups), ToShort(|groups| + 1), ResolveAll(nodes + [MatchNode], NamedGroupsOf(groups))))
    {
      PushNodeBuffer();
      while !Done()
        invariant Valid() && |nodeBuffers| == 1
        decreases fuel
      {
        var o := ParseSingle();
        if o.Fail? {
          return Failure(o.error);
        }
      }
      var check := CheckReferences();
      if check.Fail? {
        return Failure(check.error);
      }
      ReferenceCheckNamed(unresolvedBackRefs, groupNames, namedGroups, cursor);
      var nodes := PopNodeBuffer();
      var ast := RootNode(namedGroups, nextGroupIndex, ResolveAll(nodes + [MatchNode], namedGroups));
      return Success(Optimizer.Optimize(ast));
    }
  }

  /** A passing reference pass found every name. */
  lemma {:induction false} ReferenceCheckNamed(refs: seq<string>, names: set<string>, m: seq<(int16, string)>, position: int)
    requires ReferenceCheck(refs, names, m, position) == Pass
    ensures forall k | 0 <= k < |refs| :: refs[k] in names
  {
    if refs != [] {
      ReferenceCheckNamed(refs[1..], names, m, position);
      forall k | 1 <= k < |refs| ensures refs[k] in names {
        assert refs[k] == refs[1..][k - 1];
      }
    }
  }

  /**
   * `Parser(codePoints, unicode).parse()`: the parse of a whole pattern.
   * `propertyAliases` and `valueAliases` stand for the two alias tables of
   * `unicode.kt` (`Unicode.PropertyAliases` and `Unicode.ValueAliases`).
   * Within the fuel bound the root lists the named groups of some sequence
   * of opened groups with distinct names and counts them.
   */
  method ParsePattern(codePoints: seq<int>, unicode: bool, propertyAliases: seq<(string, string)>,
                      valueAliases: seq<(string, string)>, fuel: nat) returns (r: Result<ASTNode, ParseError>)
    requires IsCodePoints(codePoints)
    ensures r.Success? ==>
              && r.value.RootNode?
              && exists groups: GroupLog ::
                   && DistinctNames(groups)
                   && r.value.groupNames == NamedGroupsOf(groups)
                   && r.value.numGroups == ToShort(|groups| + 1)
  {
    var parser := new Parser(codePoints, unicode, propertyAliases, valueAliases, fuel);
    r := parser.Parse();
  }
}

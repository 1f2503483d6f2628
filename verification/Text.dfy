/**
 The string operations WingStation takes from Go's strings, strconv and fmt packages.
 A string is a sequence of code points; letter case is folded over ASCII only.
 */
module Text {

  datatype Option<+T> = None | Some(value: T) {
    function GetOr(default: T): T {
      match this
      case Some(v) => v
      case None => default
    }
  }

  lemma ConcatAssoc<T>(a: seq<T>, b: seq<T>, c: seq<T>)
    ensures a + (b + c) == a + b + c
  {
  }

  lemma CutAt<T>(s: seq<T>, i: nat)
    requires i < |s|
    ensures s == s[..i] + ([s[i]] + s[i + 1..])
  {
  }

  // ---------- Splitting and joining ----------

  /** The index of the first `c`, or -1 (strings.Index with a one-character pattern). */
  function IndexOf(s: string, c: char): (i: int)
    ensures -1 <= i < |s|
    ensures i == -1 ==> c !in s
    ensures i >= 0 ==> s[i] == c && c !in s[..i]
  {
    if |s| == 0 then -1
    else if s[0] == c then 0
    else
      var i := IndexOf(s[1..], c);
      if i == -1 then -1 else
        assert s[..i + 1] == [s[0]] + s[1..][..i];
        i + 1
  }

  lemma NotInLonger(s: string, c: char, i: nat)
    requires i < |s| && s[|s| - 1] != c && c !in s[..|s| - 1][i..]
    ensures c !in s[i..]
  {
    forall k | i <= k < |s| ensures s[k] != c {
      if k < |s| - 1 { assert s[k] == s[..|s| - 1][i..][k - i]; }
    }
  }

  /** The index of the last `c`, or -1 (strings.LastIndex). */
  function LastIndexOf(s: string, c: char): (i: int)
    ensures -1 <= i < |s|
    ensures i == -1 ==> c !in s
    ensures i >= 0 ==> s[i] == c && c !in s[i + 1..]
  {
    if |s| == 0 then -1
    else if s[|s| - 1] == c then |s| - 1
    else
      var i := LastIndexOf(s[..|s| - 1], c);
      NotInLonger(s, c, i + 1);
      i
  }

  lemma {:induction false} IndexOfAt(a: string, c: char, b: string)
    requires c !in a
    ensures IndexOf(a + [c] + b, c) == |a|
  {
    if a != "" {
      IndexOfAt(a[1..], c, b);
      assert (a + [c] + b)[1..] == a[1..] + [c] + b;
    }
  }

  lemma {:induction false} LastIndexOfAt(a: string, c: char, b: string)
    requires c !in b
    ensures LastIndexOf(a + [c] + b, c) == |a|
  {
    var s := a + [c] + b;
    if b == "" {
      assert s == a + [c];
    } else {
      LastIndexOfAt(a, c, b[..|b| - 1]);
      assert s[..|s| - 1] == a + [c] + b[..|b| - 1];
    }
  }

  /** strings.Split with a one-character separator: always at least one part. */
  function Split(s: string, sep: char): (parts: seq<string>)
    ensures |parts| >= 1
  {
    if s == "" then [""]
    else
      var rest := Split(s[1..], sep);
      if s[0] == sep then [""] + rest else [[s[0]] + rest[0]] + rest[1..]
  }

  lemma {:induction false} SplitPiece(s: string, sep: char, i: nat)
    requires i < |Split(s, sep)|
    ensures sep !in Split(s, sep)[i]
  {
    if s != "" {
      var rest := Split(s[1..], sep);
      if s[0] == sep {
        if i > 0 { SplitPiece(s[1..], sep, i - 1); }
      } else {
        SplitPiece(s[1..], sep, i);
      }
    }
  }

  function Join(parts: seq<string>, sep: char): string {
    if parts == [] then ""
    else if |parts| == 1 then parts[0]
    else parts[0] + [sep] + Join(parts[1..], sep)
  }

  lemma {:induction false} SplitNoSeparator(s: string, sep: char)
    requires sep !in s
    ensures Split(s, sep) == [s]
  {
    if s != "" {
      SplitNoSeparator(s[1..], sep);
      assert [s[0]] + s[1..] == s;
    }
  }

  lemma {:induction false} SplitAtSeparator(a: string, sep: char, b: string)
    requires sep !in a
    ensures Split(a + [sep] + b, sep) == [a] + Split(b, sep)
  {
    var s := a + [sep] + b;
    if a == "" {
      assert s[1..] == b;
    } else {
      SplitAtSeparator(a[1..], sep, b);
      assert s[1..] == a[1..] + [sep] + b;
      assert [s[0]] + a[1..] == a;
    }
  }

  lemma {:induction false} SplitOfJoin(parts: seq<string>, sep: char)
    requires |parts| >= 1
    requires forall p | p in parts :: sep !in p
    ensures Split(Join(parts, sep), sep) == parts
  {
    if |parts| == 1 {
      SplitNoSeparator(parts[0], sep);
    } else {
      SplitOfJoin(parts[1..], sep);
      SplitAtSeparator(parts[0], sep, Join(parts[1..], sep));
    }
  }

  /** strings.SplitN with a one-character separator and n >= 1: the last part keeps the remaining separators. */
  function SplitN(s: string, sep: char, n: nat): (parts: seq<string>)
    requires n >= 1
    ensures 1 <= |parts| <= n
  {
    var i := IndexOf(s, sep);
    if n == 1 || i == -1 then [s] else [s[..i]] + SplitN(s[i + 1..], sep, n - 1)
  }

  // ---------- Prefixes, search, trimming, folding ----------

  predicate HasPrefix(s: string, p: string) { p <= s }

  function TrimPrefix(s: string, p: string): string {
    if p <= s then s[|p|..] else s
  }

  predicate OccursAt(s: string, sub: string, i: nat) {
    i + |sub| <= |s| && s[i..i + |sub|] == sub
  }

  predicate Contains(s: string, sub: string) {
    exists i: nat | i <= |s| :: OccursAt(s, sub, i)
  }

  /** unicode.IsSpace */
  predicate IsSpace(c: char) {
    || '\t' <= c <= '\r' || c == ' ' || c == '\U{85}' || c == '\U{A0}' || c == '\U{1680}'
    || '\U{2000}' <= c <= '\U{200A}' || '\U{2028}' <= c <= '\U{2029}'
    || c == '\U{202F}' || c == '\U{205F}' || c == '\U{3000}'
  }

  lemma AsciiSpaces(c: char)
    requires c < '\U{80}'
    ensures IsSpace(c) <==> c as int in {9, 10, 11, 12, 13, 32}
  {
    assert '\t' as int == 9 && '\r' as int == 13 && ' ' as int == 32;
  }

  function SkipLeft(s: string, i: nat): (lo: nat)
    requires i <= |s|
    ensures i <= lo <= |s| && (lo < |s| ==> !IsSpace(s[lo]))
    decreases |s| - i
  {
    if i < |s| && IsSpace(s[i]) then SkipLeft(s, i + 1) else i
  }

  function SkipRight(s: string, lo: nat, i: nat): (hi: nat)
    requires lo <= i <= |s|
    ensures lo <= hi <= i && (lo < hi ==> !IsSpace(s[hi - 1]))
  {
    if lo < i && IsSpace(s[i - 1]) then SkipRight(s, lo, i - 1) else i
  }

  /** strings.TrimSpace */
  function TrimSpace(s: string): string {
    var lo := SkipLeft(s, 0);
    s[lo..SkipRight(s, lo, |s|)]
  }

  predicate Trimmed(s: string) {
    s != "" ==> !IsSpace(s[0]) && !IsSpace(s[|s| - 1])
  }

  lemma TrimSpaceFixed(s: string)
    ensures Trimmed(TrimSpace(s))
    ensures Trimmed(s) ==> TrimSpace(s) == s
    ensures forall c | c in TrimSpace(s) :: c in s
  {
  }

  predicate AllSpace(s: string) { forall i | 0 <= i < |s| :: IsSpace(s[i]) }

  lemma {:induction false} SkipLeftAt(s: string, i: nat, k: nat)
    requires i <= k <= |s| && (forall m | i <= m < k :: IsSpace(s[m])) && (k == |s| || !IsSpace(s[k]))
    ensures SkipLeft(s, i) == k
    decreases k - i
  {
    if i < k { SkipLeftAt(s, i + 1, k); }
  }

  lemma {:induction false} SkipRightAt(s: string, lo: nat, i: nat, k: nat)
    requires lo <= k <= i <= |s| && (forall m | k <= m < i :: IsSpace(s[m])) && (k == lo || !IsSpace(s[k - 1]))
    ensures SkipRight(s, lo, i) == k
    decreases i
  {
    if k < i { SkipRightAt(s, lo, i - 1, k); }
  }

  lemma TrimSpaceAll(s: string)
    requires AllSpace(s)
    ensures TrimSpace(s) == ""
  {
    hide IsSpace, SkipLeft, SkipRight;
    SkipLeftAt(s, 0, |s|);
    SkipRightAt(s, |s|, |s|, |s|);
  }

  lemma TrimSpaceAt(s: string, lo: nat, hi: nat)
    requires lo < hi <= |s| && AllSpace(s[..lo]) && AllSpace(s[hi..]) && !IsSpace(s[lo]) && !IsSpace(s[hi - 1])
    ensures TrimSpace(s) == s[lo..hi]
  {
    hide IsSpace, SkipLeft, SkipRight;
    forall m | 0 <= m < lo ensures IsSpace(s[m]) { assert s[..lo][m] == s[m]; }
    forall m | hi <= m < |s| ensures IsSpace(s[m]) { assert s[hi..][m - hi] == s[m]; }
    SkipLeftAt(s, 0, lo);
    SkipRightAt(s, lo, |s|, hi);
  }

  /** Trimming takes the space off both ends of a text, and nothing else. */
  lemma TrimSpaceOf(left: string, text: string, right: string)
    requires AllSpace(left) && AllSpace(right) && Trimmed(text)
    ensures TrimSpace(left + text + right) == text
  {
    hide IsSpace, TrimSpace;
    var s, hi := left + text + right, |left| + |text|;
    if |text| == 0 {
      assert s == left + right;
      TrimSpaceAll(s);
    } else {
      assert s[..|left|] == left && s[|left|..hi] == text && s[hi..] == right;
      TrimSpaceAt(s, |left|, hi);
    }
  }

  function LowerChar(c: char): char {
    if 'A' <= c <= 'Z' then (c as int + 32) as char else c
  }

  function ToLower(s: string): (t: string)
    ensures |t| == |s|
  {
    seq(|s|, i requires 0 <= i < |s| => LowerChar(s[i]))
  }

  /** strings.EqualFold */
  predicate EqualFold(a: string, b: string) { ToLower(a) == ToLower(b) }

  predicate IsLetter(c: char) { 'a' <= c <= 'z' || 'A' <= c <= 'Z' }

  /** The same character, or the two cases of one ASCII letter. */
  predicate SameLetter(a: char, b: char) {
    a == b || (IsLetter(a) && IsLetter(b) && (a as int - b as int == 32 || b as int - a as int == 32))
  }

  lemma LowerCharIff(a: char, b: char)
    ensures LowerChar(a) == LowerChar(b) <==> SameLetter(a, b)
  {
    assert 'A' as int == 65 && 'Z' as int == 90 && 'a' as int == 97 && 'z' as int == 122;
  }

  /** Strings fold to each other exactly when they agree letter by letter up to case. */
  lemma EqualFoldIff(a: string, b: string)
    ensures EqualFold(a, b) <==> |a| == |b| && forall i | 0 <= i < |a| :: SameLetter(a[i], b[i])
  {
    hide LowerChar, SameLetter;
    if |a| == |b| {
      forall i | 0 <= i < |a| ensures ToLower(a)[i] == ToLower(b)[i] <==> SameLetter(a[i], b[i]) {
        LowerCharIff(a[i], b[i]);
      }
      assert ToLower(a) == ToLower(b) <==> forall i | 0 <= i < |a| :: ToLower(a)[i] == ToLower(b)[i];
    }
  }

  lemma LowerTwice(c: char)
    ensures LowerChar(LowerChar(c)) == LowerChar(c) && !('A' <= LowerChar(c) <= 'Z')
  {
  }

  /** The lowered string has no capital and folds to the original. */
  lemma ToLowerIs(s: string)
    ensures EqualFold(s, ToLower(s))
    ensures forall i | 0 <= i < |s| :: !('A' <= ToLower(s)[i] <= 'Z')
  {
    hide LowerChar;
    forall i | 0 <= i < |s| ensures LowerChar(LowerChar(s[i])) == LowerChar(s[i]) && !('A' <= LowerChar(s[i]) <= 'Z') {
      LowerTwice(s[i]);
    }
    assert ToLower(ToLower(s)) == ToLower(s);
  }

  lemma ContainsIff(s: string, sub: string)
    ensures Contains(s, sub) <==> exists a, b :: s == a + sub + b
  {
    if Contains(s, sub) {
      var i: nat :| i <= |s| && OccursAt(s, sub, i);
      assert s == s[..i] + sub + s[i + |sub|..];
    }
    if a, b :| s == a + sub + b {
      assert OccursAt(s, sub, |a|);
    }
  }

  // ---------- Order ----------

  /** Go's `<` on strings. */
  predicate StrLess(a: string, b: string) {
    b != "" && (a == "" || a[0] < b[0] || (a[0] == b[0] && StrLess(a[1..], b[1..])))
  }

  lemma {:induction false} StrLessIrreflexive(a: string)
    ensures !StrLess(a, a)
  {
    if a != "" { StrLessIrreflexive(a[1..]); }
  }

  lemma {:induction false} StrLessTransitive(a: string, b: string, c: string)
    requires StrLess(a, b) && StrLess(b, c)
    ensures StrLess(a, c)
  {
    if a != "" && a[0] == b[0] == c[0] {
      StrLessTransitive(a[1..], b[1..], c[1..]);
    }
  }

  lemma {:induction false} StrLessTotal(a: string, b: string)
    ensures StrLess(a, b) || a == b || StrLess(b, a)
  {
    if a != "" && b != "" && a[0] == b[0] {
      StrLessTotal(a[1..], b[1..]);
      assert a == [a[0]] + a[1..] && b == [b[0]] + b[1..];
    }
  }

  /** a is shorter than b and begins it, or has the smaller character where they first differ. */
  ghost predicate ComesBefore(a: string, b: string) {
    exists k :: DiffersAt(a, b, k)
  }

  predicate DiffersAt(a: string, b: string, k: nat) {
    k <= |a| && k < |b| && a[..k] == b[..k] && (k == |a| || a[k] < b[k])
  }

  lemma {:induction false} StrLessIff(a: string, b: string)
    ensures StrLess(a, b) <==> ComesBefore(a, b)
  {
    if |b| == 0 {
    } else if |a| == 0 || a[0] < b[0] {
      assert DiffersAt(a, b, 0);
    } else if a[0] == b[0] {
      StrLessIff(a[1..], b[1..]);
      assert a == [a[0]] + a[1..] && b == [b[0]] + b[1..];
      if k: nat :| DiffersAt(a[1..], b[1..], k) {
        assert a[..k + 1] == [a[0]] + a[1..][..k] && b[..k + 1] == [b[0]] + b[1..][..k];
        assert DiffersAt(a, b, k + 1);
      }
      if k: nat :| DiffersAt(a, b, k) {
        assert k > 0;
        assert a[1..][..k - 1] == a[..k][1..] && b[1..][..k - 1] == b[..k][1..];
        assert DiffersAt(a[1..], b[1..], k - 1);
      }
    } else {
      forall k: nat ensures !DiffersAt(a, b, k) {
        assert 0 < k <= |a| && k < |b| ==> a[..k][0] != b[..k][0];
      }
    }
  }

  // ---------- Decimal numbers ----------

  predicate IsDigit(c: char) { '0' <= c <= '9' }

  predicate AllDigits(s: string) { forall c | c in s :: IsDigit(c) }

  function Digit(d: nat): char
    requires d < 10
  {
    (d + '0' as int) as char
  }

  /** %d of a natural number. */
  function Decimal(n: nat): (s: string)
    ensures s != "" && AllDigits(s)
  {
    if n < 10 then [Digit(n)] else Decimal(n / 10) + [Digit(n % 10)]
  }

  /** %d of any integer. */
  function Itoa(n: int): string {
    if n < 0 then "-" + Decimal(-n) else Decimal(n)
  }

  /** The number a string of digits denotes in base ten. */
  function DigitsValue(s: string): nat
    requires AllDigits(s)
  {
    if s == "" then 0
    else
      assert IsDigit(s[|s| - 1]);
      10 * DigitsValue(s[..|s| - 1]) + (s[|s| - 1] as int - '0' as int)
  }

  lemma {:induction false} DecimalValue(n: nat)
    ensures DigitsValue(Decimal(n)) == n
  {
    if n < 10 {
      assert Decimal(n)[..0] == "";
    } else {
      DecimalValue(n / 10);
      assert Decimal(n)[..|Decimal(n)| - 1] == Decimal(n / 10);
    }
  }

  lemma DecimalInjective(m: nat, n: nat)
    requires Decimal(m) == Decimal(n)
    ensures m == n
  {
    DecimalValue(m);
    DecimalValue(n);
  }

  const MIN_INT64: int := -0x8000_0000_0000_0000
  const MAX_INT64: int := 0x7fff_ffff_ffff_ffff

  function Signed(negative: bool, digits: string): (n: Option<int>)
    ensures n.Some? ==> MIN_INT64 <= n.value <= MAX_INT64
  {
    if digits == "" || !AllDigits(digits) then None
    else
      var magnitude: int := DigitsValue(digits);
      var v := if negative then -magnitude else magnitude;
      if MIN_INT64 <= v <= MAX_INT64 then Some(v) else None
  }

  /** strconv.Atoi on a 64-bit platform: one optional sign, then only digits, in the range of int. */
  function Atoi(s: string): (n: Option<int>)
    ensures n.Some? ==> MIN_INT64 <= n.value <= MAX_INT64
  {
    if s != "" && s[0] == '-' then Signed(true, s[1..])
    else if s != "" && s[0] == '+' then Signed(false, s[1..])
    else Signed(false, s)
  }

  lemma SignedOfDecimal(negative: bool, m: nat)
    requires if negative then m <= -MIN_INT64 else m <= MAX_INT64
    ensures Signed(negative, Decimal(m)) == Some(if negative then 0 - m else m)
  {
    DecimalValue(m);
  }

  /** Reading back a printed 64-bit integer gives that integer. */
  lemma AtoiOfItoa(n: int)
    requires MIN_INT64 <= n <= MAX_INT64
    ensures Atoi(Itoa(n)) == Some(n)
  {
    if n < 0 {
      SignedOfDecimal(true, -n);
      assert Itoa(n)[1..] == Decimal(-n);
    } else {
      SignedOfDecimal(false, n);
      assert IsDigit(Decimal(n)[0]);
    }
  }

  /** A plus sign and leading zeros do not change the number; one that does not fit is refused. */
  lemma AtoiForms(n: nat)
    ensures Atoi("+" + Decimal(n)) == Atoi(Decimal(n)) == if n <= MAX_INT64 then Some(n) else None
    ensures Atoi("-" + Decimal(n)) == if n <= -MIN_INT64 then Some(0 - n) else None
    ensures Atoi("0" + Decimal(n)) == Atoi(Decimal(n))
  {
    DecimalValue(n);
    var d := Decimal(n);
    assert IsDigit(d[0]) && ("+" + d)[1..] == d && ("-" + d)[1..] == d;
    assert AllDigits("0" + d) && ("0" + d)[0] == '0';
    LeadingZero(d);
  }

  lemma {:induction false} LeadingZero(d: string)
    requires AllDigits(d)
    ensures AllDigits("0" + d) && DigitsValue("0" + d) == DigitsValue(d)
  {
    var z := "0" + d;
    if |d| == 0 {
      assert z == "0" && z[..0] == "";
    } else {
      LeadingZero(d[..|d| - 1]);
      assert z[..|z| - 1] == "0" + d[..|d| - 1];
    }
  }
}

/**
  The string operations the importer relies on, each as Python defines it
  for the inputs that occur: `str.lower` (on ASCII letters),
  `os.path.splitext` on a bare file name, `str.split` and `str.join` with
  a fixed separator, `str.replace` of one character, `list.remove` and
  `str(i)` on a natural number.
 */
module Text {

  // ---------------------------------------------------------------------
  // Lower case (ASCII letters; other characters are left as they are)

  function LowerChar(c: char): char {
    if 'A' <= c <= 'Z' then (c as int - 'A' as int + 'a' as int) as char else c
  }

  function Lower(s: string): (r: string)
    ensures |r| == |s|
    ensures forall i :: 0 <= i < |s| ==> r[i] == LowerChar(s[i])
  {
    if s == [] then [] else [LowerChar(s[0])] + Lower(s[1..])
  }

  /** Lower-casing leaves no upper-case letter and is idempotent. */
  lemma LowerIsLowerCase(s: string)
    ensures forall i :: 0 <= i < |s| ==> !('A' <= Lower(s)[i] <= 'Z')
    ensures Lower(Lower(s)) == Lower(s)
  {
  }

  // ---------------------------------------------------------------------
  // os.path.splitext on a name without directory separators

  /** Index of the last `c` in `s`, or -1 when there is none (`str.rfind`). */
  function LastIndexOf(s: string, c: char): (r: int)
    ensures -1 <= r < |s|
    ensures r >= 0 ==> s[r] == c
    ensures forall j :: r < j < |s| ==> s[j] != c
  {
    if s == [] then -1
    else if s[|s| - 1] == c then |s| - 1
    else LastIndexOf(s[..|s| - 1], c)
  }

  /** Some character before position `d` is not a dot. */
  predicate NonDotBefore(p: string, d: int)
    requires d <= |p|
  {
    exists i :: 0 <= i < d && p[i] != '.'
  }

  /** Position `d` starts the extension of `p`: it is the last dot and
      the part before it is not made of dots only. */
  predicate ExtensionAt(p: string, d: int) {
    && 0 <= d < |p|
    && p[d] == '.'
    && (forall j :: d < j < |p| ==> p[j] != '.')
    && NonDotBefore(p, d)
  }

  /** `os.path.splitext(p)` for a bare name `p`: split before the last dot,
      unless everything before that dot is dots (so `.bashrc` and `..x`
      have no extension). The extension keeps its leading dot. */
  function Splitext(p: string): (r: (string, string))
    ensures r.0 + r.1 == p
    ensures r.1 != [] ==> ExtensionAt(p, |r.0|)
    ensures r.1 == [] ==> r.0 == p && forall d :: !ExtensionAt(p, d)
  {
    var d := LastIndexOf(p, '.');
    if d >= 0 && NonDotBefore(p, d) then
      assert p[..d] + p[d..] == p;
      (p[..d], p[d..])
    else
      (p, [])
  }

  /** `s[1:]` in Python: drops the first character, if any. */
  function DropFirst(s: string): (r: string)
    ensures s == [] ==> r == []
    ensures s != [] ==> r == s[1..]
  {
    if s == [] then [] else s[1..]
  }

  // ---------------------------------------------------------------------
  // Suffix test (the regular expression `.<suffix>$`, see Media)

  predicate EndsWith(s: string, suffix: string) {
    |suffix| <= |s| && s[|s| - |suffix|..] == suffix
  }

  // ---------------------------------------------------------------------
  // str.split(c) and sep.join(parts)

  /** `s.split(c)` for a one-character separator: never empty, and `""`
      splits into `[""]`. */
  function Split(s: string, c: char): (r: seq<string>)
    ensures |r| >= 1
  {
    if s == [] then [[]]
    else
      var rest := Split(s[1..], c);
      if s[0] == c then [[]] + rest else [[s[0]] + rest[0]] + rest[1..]
  }

  function Join(parts: seq<string>, sep: string): string {
    if |parts| == 0 then []
    else if |parts| == 1 then parts[0]
    else parts[0] + sep + Join(parts[1..], sep)
  }

  lemma {:induction false} SplitPrefix(a: string, t: string, c: char)
    requires c !in a
    ensures Split(a + t, c) == [a + Split(t, c)[0]] + Split(t, c)[1..]
  {
    var st := Split(t, c);
    if a == [] {
      assert a + t == t;
      assert a + st[0] == st[0];
      assert st == [st[0]] + st[1..];
    } else {
      assert (a + t)[0] == a[0];
      assert (a + t)[1..] == a[1..] + t;
      SplitPrefix(a[1..], t, c);
      assert [a[0]] + (a[1..] + st[0]) == a + st[0];
    }
  }

  /** Splitting a joined path gives its segments back, when no segment
      contains the separator. */
  lemma {:induction false} SplitJoin(parts: seq<string>, c: char)
    requires |parts| >= 1
    requires forall i :: 0 <= i < |parts| ==> c !in parts[i]
    ensures Split(Join(parts, [c]), c) == parts
  {
    if |parts| == 1 {
      SplitPrefix(parts[0], [], c);
      assert parts[0] + [] == parts[0];
      assert Split([], c) == [[]];
      assert parts == [parts[0]];
    } else {
      var rest := parts[1..];
      SplitJoin(rest, c);
      var t := [c] + Join(rest, [c]);
      assert Join(parts, [c]) == parts[0] + t;
      SplitPrefix(parts[0], t, c);
      assert t[1..] == Join(rest, [c]);
      assert Split(t, c) == [[]] + rest;
      assert parts[0] + [] == parts[0];
      assert parts == [parts[0]] + rest;
    }
  }

  // ---------------------------------------------------------------------
  // list.remove(x), str.replace(a, b)

  /** Removes the first occurrence of `x` (the caller checks `x in xs`). */
  function RemoveFirst<T(==)>(xs: seq<T>, x: T): (r: seq<T>)
    ensures x in xs ==> |r| == |xs| - 1
    ensures x !in xs ==> r == xs
  {
    if xs == [] then []
    else if xs[0] == x then xs[1..]
    else [xs[0]] + RemoveFirst(xs[1..], x)
  }

  /** The position of the first occurrence of `x`. */
  function FirstIndex<T(==)>(xs: seq<T>, x: T): (i: nat)
    requires x in xs
    ensures i < |xs| && xs[i] == x
    ensures forall k :: 0 <= k < i ==> xs[k] != x
  {
    if xs[0] == x then 0 else 1 + FirstIndex(xs[1..], x)
  }

  /** Removing an occurrence with none before it keeps what precedes and
      what follows it. */
  lemma {:induction false} RemoveFirstAt<T>(xs: seq<T>, x: T, i: nat)
    requires i < |xs| && xs[i] == x
    requires forall k :: 0 <= k < i ==> xs[k] != x
    ensures RemoveFirst(xs, x) == xs[..i] + xs[i + 1..]
  {
    if i == 0 {
      assert xs[..0] + xs[1..] == xs[1..];
    } else {
      assert xs[0] != x;
      RemoveFirstAt(xs[1..], x, i - 1);
      var before, after := xs[1..][..i - 1], xs[1..][i..];
      assert xs[..i] == [xs[0]] + before;
      assert xs[i + 1..] == after;
      calc {
        RemoveFirst(xs, x);
        [xs[0]] + (before + after);
        ([xs[0]] + before) + after;
      }
    }
  }

  /** What is removed is the first occurrence: everything before it and
      everything after it stays, in order. */
  lemma RemoveFirstIsFirst<T>(xs: seq<T>, x: T)
    requires x in xs
    ensures exists i :: 0 <= i < |xs| && xs[i] == x && x !in xs[..i]
                        && RemoveFirst(xs, x) == xs[..i] + xs[i + 1..]
  {
    var i := FirstIndex(xs, x);
    RemoveFirstAt(xs, x, i);
    assert x !in xs[..i];
  }

  function ReplaceChar(s: string, a: char, b: char): (r: string)
    ensures |r| == |s|
    ensures forall i :: 0 <= i < |s| ==> r[i] == (if s[i] == a then b else s[i])
  {
    if s == [] then [] else [if s[0] == a then b else s[0]] + ReplaceChar(s[1..], a, b)
  }

  // ---------------------------------------------------------------------
  // str(i) for a natural number

  function DigitChar(d: nat): char
    requires d < 10
  {
    ('0' as int + d) as char
  }

  predicate IsDigit(c: char) {
    '0' <= c <= '9'
  }

  function NatToString(n: nat): (r: string)
    decreases n
  {
    if n < 10 then [DigitChar(n)] else NatToString(n / 10) + [DigitChar(n % 10)]
  }

  /** The value of a string of decimal digits. */
  function DecimalValue(s: string): nat
    requires forall i :: 0 <= i < |s| ==> IsDigit(s[i])
  {
    if s == [] then 0
    else DecimalValue(s[..|s| - 1]) * 10 + DigitValue(s[|s| - 1])
  }

  function DigitValue(c: char): nat
    requires IsDigit(c)
  {
    c as int - '0' as int
  }

  /** `str(n)` is a non-empty string of digits without a leading zero
      (other than "0" itself), and reading it back gives `n`. */
  lemma {:induction false} NatToStringDecimal(n: nat)
    ensures var s := NatToString(n);
      && |s| >= 1
      && (forall i :: 0 <= i < |s| ==> IsDigit(s[i]))
      && (s[0] == '0' <==> n == 0)
      && DecimalValue(s) == n
    decreases n
  {
    if n >= 10 {
      NatToStringDecimal(n / 10);
      var s := NatToString(n);
      assert s[..|s| - 1] == NatToString(n / 10);
    }
  }

  /** Distinct numbers print differently. */
  lemma NatToStringInjective(a: nat, b: nat)
    requires NatToString(a) == NatToString(b)
    ensures a == b
  {
    NatToStringDecimal(a);
    NatToStringDecimal(b);
  }
}

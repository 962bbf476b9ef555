/**
 * Character and string helpers shared by both source files: ASCII case
 * mapping (JavaScript `toLowerCase`, Python `lower`/`upper`), Python's
 * whitespace `split()`, substring search (Python `in`) and decimal
 * rendering of naturals (Python `str`).
 */
module Text {

  predicate IsUpper(c: char) { 'A' <= c <= 'Z' }
  predicate IsLower(c: char) { 'a' <= c <= 'z' }
  predicate IsDigit(c: char) { '0' <= c <= '9' }
  predicate IsLetter(c: char) { IsUpper(c) || IsLower(c) }
  /** The alphabet `string.ascii_letters + string.digits`. */
  predicate IsAlnum(c: char) { IsLetter(c) || IsDigit(c) }

  /** Python `str.isspace`: the characters `str.split()` separates on. */
  predicate IsSpace(c: char) {
    var n := c as int;
    (9 <= n <= 13) || (28 <= n <= 32) || n == 0x85 || n == 0xA0 || n == 0x1680 ||
    (0x2000 <= n <= 0x200A) || n == 0x2028 || n == 0x2029 || n == 0x202F ||
    n == 0x205F || n == 0x3000
  }

  predicate AllDigits(s: string) { forall i :: 0 <= i < |s| ==> IsDigit(s[i]) }

  function Lower(c: char): (r: char)
    ensures !IsUpper(r)
    ensures IsUpper(c) ==> r as int == c as int + 32
    ensures !IsUpper(c) ==> r == c
  {
    if IsUpper(c) then (c as int + 32) as char else c
  }

  function Upper(c: char): (r: char)
    ensures !IsLower(r)
    ensures IsLower(c) ==> r as int == c as int - 32
    ensures !IsLower(c) ==> r == c
  {
    if IsLower(c) then (c as int - 32) as char else c
  }

  function LowerStr(s: string): (r: string)
    ensures |r| == |s| && forall i :: 0 <= i < |s| ==> r[i] == Lower(s[i])
  {
    if s == [] then [] else [Lower(s[0])] + LowerStr(s[1..])
  }

  function UpperStr(s: string): (r: string)
    ensures |r| == |s| && forall i :: 0 <= i < |s| ==> r[i] == Upper(s[i])
  {
    if s == [] then [] else [Upper(s[0])] + UpperStr(s[1..])
  }

  /** Lower-casing twice is lower-casing once. */
  lemma {:induction false} LowerStrIdempotent(s: string)
    ensures LowerStr(LowerStr(s)) == LowerStr(s)
  {
    if s != [] {
      LowerStrIdempotent(s[1..]);
    }
  }

  /** Python `s[-n:]` for `n >= 1`: the last `n` characters, or all of `s` when it is shorter. */
  function Suffix(s: string, n: nat): (r: string)
    requires n >= 1
    ensures |r| == if |s| < n then |s| else n
    ensures s == s[..|s| - |r|] + r
  {
    if |s| <= n then s else s[|s| - n..]
  }

  /** `p` occurs in `s` starting at index `i`. */
  predicate OccursAt(s: string, p: string, i: nat) {
    i + |p| <= |s| && s[i..i + |p|] == p
  }

  /** Python `p in s` on two strings, as a left-to-right scan. */
  function Contains(s: string, p: string): bool
    decreases |s|
  {
    p <= s || (s != [] && Contains(s[1..], p))
  }

  lemma OccursAtStart(s: string, p: string)
    ensures OccursAt(s, p, 0) <==> p <= s
  {
    if p <= s {
      assert s[0..|p|] == p;
    }
  }

  lemma OccursShifted(s: string, p: string, i: nat)
    requires s != []
    ensures OccursAt(s[1..], p, i) <==> OccursAt(s, p, i + 1)
  {
    if i + |p| <= |s[1..]| {
      assert s[1..][i..i + |p|] == s[i + 1..i + 1 + |p|];
    }
  }

  /** The scan agrees with "some position of `s` starts a copy of `p`", both ways. */
  lemma {:induction false} ContainsIffOccurs(s: string, p: string)
    ensures Contains(s, p) <==> exists i: nat :: OccursAt(s, p, i)
    decreases |s|
  {
    OccursAtStart(s, p);
    if p <= s {
    } else if s == [] {
    } else {
      ContainsIffOccurs(s[1..], p);
      if Contains(s[1..], p) {
        var i: nat :| OccursAt(s[1..], p, i);
        OccursShifted(s, p, i);
      } else {
        forall i: nat | OccursAt(s, p, i) ensures false {
          if i > 0 {
            OccursShifted(s, p, i - 1);
          }
        }
      }
    }
  }

  /** Length of the run of non-whitespace characters at the start of `s`. */
  function WordLength(s: string): (n: nat)
    ensures n <= |s|
    ensures forall i :: 0 <= i < n ==> !IsSpace(s[i])
    ensures n < |s| ==> IsSpace(s[n])
  {
    if s == [] || IsSpace(s[0]) then 0 else 1 + WordLength(s[1..])
  }

  /** Python `s.split()` with no separator: maximal runs of non-whitespace, in order. */
  function Words(s: string): (r: seq<string>)
    decreases |s|
  {
    if s == [] then []
    else if IsSpace(s[0]) then Words(s[1..])
    else
      var n := WordLength(s);
      [s[..n]] + Words(s[n..])
  }

  function Concat(ws: seq<string>): string {
    if ws == [] then [] else ws[0] + Concat(ws[1..])
  }

  function RemoveSpaces(s: string): (r: string) {
    if s == [] then [] else (if IsSpace(s[0]) then [] else [s[0]]) + RemoveSpaces(s[1..])
  }

  lemma {:induction false} RemoveSpacesAppend(a: string, b: string)
    ensures RemoveSpaces(a + b) == RemoveSpaces(a) + RemoveSpaces(b)
  {
    if a != [] {
      assert (a + b)[1..] == a[1..] + b;
      RemoveSpacesAppend(a[1..], b);
    } else {
      assert a + b == b;
    }
  }

  lemma {:induction false} RemoveSpacesOfWord(w: string)
    requires forall i :: 0 <= i < |w| ==> !IsSpace(w[i])
    ensures RemoveSpaces(w) == w
  {
    if w != [] {
      RemoveSpacesOfWord(w[1..]);
    }
  }

  /** The words are non-empty and space-free, and join back to `s` without its whitespace. */
  lemma {:induction false} WordsJoin(s: string)
    ensures forall k :: 0 <= k < |Words(s)| ==>
      |Words(s)[k]| > 0 && forall i :: 0 <= i < |Words(s)[k]| ==> !IsSpace(Words(s)[k][i])
    ensures Concat(Words(s)) == RemoveSpaces(s)
    decreases |s|
  {
    if s == [] {
    } else if IsSpace(s[0]) {
      WordsJoin(s[1..]);
      assert s == [s[0]] + s[1..];
      RemoveSpacesAppend([s[0]], s[1..]);
    } else {
      var n := WordLength(s);
      WordsJoin(s[n..]);
      assert s == s[..n] + s[n..];
      RemoveSpacesAppend(s[..n], s[n..]);
      RemoveSpacesOfWord(s[..n]);
      assert Words(s) == [s[..n]] + Words(s[n..]);
      assert Words(s)[1..] == Words(s[n..]);
    }
  }

  /** Position `i` begins a word: a non-space character at the start of `s` or right after whitespace. */
  predicate WordStart(s: string, i: int) {
    0 <= i < |s| && !IsSpace(s[i]) && (i == 0 || IsSpace(s[i - 1]))
  }

  /** The number of word starts at positions `i` and beyond. */
  function StartsFrom(s: string, i: nat): nat
    requires i <= |s|
    decreases |s| - i
  {
    if i == |s| then 0 else (if WordStart(s, i) then 1 else 0) + StartsFrom(s, i + 1)
  }

  /** Inside a run of non-space characters no word starts. */
  lemma {:induction false} NoStartInsideRun(s: string, j: nat, m: nat)
    requires 1 <= j <= m <= |s|
    requires forall k :: j - 1 <= k < m ==> !IsSpace(s[k])
    ensures StartsFrom(s, j) == StartsFrom(s, m)
    decreases m - j
  {
    if j < m {
      assert !WordStart(s, j);
      NoStartInsideRun(s, j + 1, m);
    }
  }

  /** `split()` skips a whitespace character. */
  lemma WordsSkipSpace(s: string, i: nat)
    requires i < |s| && IsSpace(s[i])
    ensures Words(s[i..]) == Words(s[i + 1..])
  {
    assert s[i..][1..] == s[i + 1..];
  }

  /** `split()` takes the run starting at `i` as one word and goes on after it. */
  lemma WordsTakeRun(s: string, i: nat) returns (n: nat)
    requires i < |s| && !IsSpace(s[i])
    ensures 1 <= n && i + n <= |s| && (i + n == |s| || IsSpace(s[i + n]))
    ensures forall k :: i <= k < i + n ==> !IsSpace(s[k])
    ensures Words(s[i..]) == [s[i..i + n]] + Words(s[i + n..])
  {
    var t := s[i..];
    assert t[0] == s[i];
    n := WordLength(t);
    assert t[n..] == s[i + n..];
    assert t[..n] == s[i..i + n];
    forall k | i <= k < i + n
      ensures !IsSpace(s[k])
    {
      assert s[k] == t[k - i];
    }
  }

  /** A word start followed by a run of `n` non-space characters counts once. */
  lemma RunCountsOnce(s: string, i: nat, n: nat)
    requires WordStart(s, i) && 1 <= n && i + n <= |s|
    requires forall k :: i <= k < i + n ==> !IsSpace(s[k])
    ensures StartsFrom(s, i) == 1 + StartsFrom(s, i + n)
  {
    if n > 1 {
      NoStartInsideRun(s, i + 1, i + n);
    }
  }

  lemma {:induction false} WordCountFrom(s: string, i: nat)
    requires i <= |s|
    requires i == 0 || i == |s| || IsSpace(s[i - 1]) || IsSpace(s[i])
    ensures |Words(s[i..])| == StartsFrom(s, i)
    decreases |s| - i
  {
    if i == |s| {
      assert s[i..] == [];
    } else if IsSpace(s[i]) {
      assert !WordStart(s, i);
      WordsSkipSpace(s, i);
      WordCountFrom(s, i + 1);
    } else {
      var n := WordsTakeRun(s, i);
      RunCountsOnce(s, i, n);
      WordCountFrom(s, i + n);
    }
  }

  /** `split()` finds one word per word start. */
  lemma WordCount(s: string)
    ensures |Words(s)| == StartsFrom(s, 0)
  {
    assert s[0..] == s;
    WordCountFrom(s, 0);
  }

  /**
   * `ws[k]` is the whole run of non-whitespace that begins at the word
   * start `a`, and exactly `|ws| - k` word starts lie at or after `a`.
   */
  predicate RunAt(s: string, a: nat, ws: seq<string>, k: nat) {
    && k < |ws| && WordStart(s, a) && StartsFrom(s, a) == |ws| - k
    && a + |ws[k]| <= |s| && ws[k] == s[a..a + |ws[k]|]
    && (a + |ws[k]| == |s| || IsSpace(s[a + |ws[k]|]))
  }

  /** The run at a word start heads the words found from there on. */
  lemma RunFirst(s: string, i: nat, n: nat, rest: seq<string>)
    requires WordStart(s, i) && StartsFrom(s, i) == 1 + |rest|
    requires 1 <= n && i + n <= |s| && (i + n == |s| || IsSpace(s[i + n]))
    ensures RunAt(s, i, [s[i..i + n]] + rest, 0)
  {
  }

  /** A run keeps its place when a word is put in front of the list. */
  lemma RunShift(s: string, a: nat, w: string, rest: seq<string>, k: nat)
    requires 1 <= k && RunAt(s, a, rest, k - 1)
    ensures RunAt(s, a, [w] + rest, k)
  {
    assert ([w] + rest)[k] == rest[k - 1];
  }

  /** `ws[k]` is the whole run at some word start, the `k`-th from the left when `ws` are all the words. */
  ghost predicate IsRun(s: string, ws: seq<string>, k: nat) {
    exists a: nat :: RunAt(s, a, ws, k)
  }

  /** From a boundary `i`, `split()` skips whitespace up to the next word start `j`. */
  lemma {:induction false} SkipSpaces(s: string, i: nat) returns (j: nat)
    requires i <= |s|
    requires i == 0 || i == |s| || IsSpace(s[i - 1]) || IsSpace(s[i])
    requires |Words(s[i..])| > 0
    ensures i <= j && WordStart(s, j) && Words(s[i..]) == Words(s[j..])
    decreases |s| - i
  {
    if i == |s| {
      assert false;
    } else if IsSpace(s[i]) {
      WordsSkipSpace(s, i);
      j := SkipSpaces(s, i + 1);
    } else {
      j := i;
    }
  }

  /** Where the `k`-th word found from position `i` on begins. */
  lemma {:induction false} WordRunFrom(s: string, i: nat, k: nat) returns (a: nat)
    requires i <= |s|
    requires i == 0 || i == |s| || IsSpace(s[i - 1]) || IsSpace(s[i])
    requires k < |Words(s[i..])|
    ensures RunAt(s, a, Words(s[i..]), k)
    decreases |s| - i, 2
  {
    var j := SkipSpaces(s, i);
    a := WordRunAtStart(s, j, k);
  }

  /** As `WordRunFrom`, when a word begins at `i`. */
  lemma {:induction false} WordRunAtStart(s: string, i: nat, k: nat) returns (a: nat)
    requires WordStart(s, i)
    requires k < |Words(s[i..])|
    ensures RunAt(s, a, Words(s[i..]), k)
    decreases |s| - i, 1
  {
    var n := WordsTakeRun(s, i);
    if k == 0 {
      RunCountsOnce(s, i, n);
      WordCountFrom(s, i + n);
      RunFirst(s, i, n, Words(s[i + n..]));
      a := i;
    } else {
      a := WordRunAfter(s, i, n, k);
    }
  }

  /** The words after the first one, found from the end `i + n` of the run at `i`. */
  lemma {:induction false} WordRunAfter(s: string, i: nat, n: nat, k: nat) returns (a: nat)
    requires 1 <= n && i + n <= |s| && (i + n == |s| || IsSpace(s[i + n]))
    requires 1 <= k <= |Words(s[i + n..])|
    ensures RunAt(s, a, [s[i..i + n]] + Words(s[i + n..]), k)
    decreases |s| - i, 0
  {
    a := WordRunFrom(s, i + n, k - 1);
    RunShift(s, a, s[i..i + n], Words(s[i + n..]), k);
  }

  /**
   * Every word `split()` returns is non-empty and free of whitespace, and
   * the words, joined back together, are `s` with its whitespace deleted;
   * there are as many words as word starts, and the `k`-th word is the
   * whole run of non-whitespace at the `k`-th word start.
   */
  lemma {:induction false} WordsSpec(s: string)
    ensures forall k :: 0 <= k < |Words(s)| ==>
      && |Words(s)[k]| > 0
      && (forall i :: 0 <= i < |Words(s)[k]| ==> !IsSpace(Words(s)[k][i]))
      && IsRun(s, Words(s), k)
    ensures Concat(Words(s)) == RemoveSpaces(s)
    ensures |Words(s)| == StartsFrom(s, 0)
  {
    WordsJoin(s);
    WordCount(s);
    assert s[0..] == s;
    forall k | 0 <= k < |Words(s)|
      ensures IsRun(s, Words(s), k)
    {
      var a := WordRunFrom(s, 0, k);
    }
  }

  /** Python `sep.join(parts)` for one-character parts. */
  function JoinChars(cs: seq<char>, sep: string): (r: string)
    ensures cs == [] ==> r == []
  {
    if cs == [] then []
    else if |cs| == 1 then [cs[0]]
    else [cs[0]] + sep + JoinChars(cs[1..], sep)
  }

  function DigitChar(d: nat): (c: char)
    requires d < 10
    ensures IsDigit(c)
  {
    ('0' as int + d) as char
  }

  /** Python `str(n)` for a natural number. */
  function Decimal(n: nat): (r: string)
    ensures |r| >= 1 && AllDigits(r)
  {
    if n < 10 then [DigitChar(n)] else Decimal(n / 10) + [DigitChar(n % 10)]
  }

  /** The value of a string of decimal digits (Python `int(s)` on such a string). */
  function DigitsValue(s: string): nat
    requires AllDigits(s)
  {
    if s == [] then 0 else 10 * DigitsValue(s[..|s| - 1]) + (s[|s| - 1] as int - '0' as int)
  }

  /** Reading back what `Decimal` wrote gives the number again. */
  lemma {:induction false} DecimalRoundTrip(n: nat)
    ensures DigitsValue(Decimal(n)) == n
  {
    var r := Decimal(n);
    if n >= 10 {
      DecimalRoundTrip(n / 10);
      assert r[..|r| - 1] == Decimal(n / 10);
    }
  }

  /** One more decimal digit for every factor of ten. */
  lemma DecimalLength(n: nat)
    requires n >= 10
    ensures |Decimal(n)| == |Decimal(n / 10)| + 1
  {
  }

  /** `str(n)` has exactly six characters for every six-digit `n`. */
  lemma DecimalSixDigits(n: nat)
    requires 100000 <= n <= 999999
    ensures |Decimal(n)| == 6
  {
    var a := n / 10;
    var b := a / 10;
    var c := b / 10;
    var d := c / 10;
    var e := d / 10;
    assert 1 <= e < 10;
    DecimalLength(n);
    DecimalLength(a);
    DecimalLength(b);
    DecimalLength(c);
    DecimalLength(d);
  }
}

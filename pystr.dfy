/**
 * The parts of Python's `str` and list behaviour that the modelled code relies on:
 * `split`, `join`, `replace`, `lower`, `str(int)`, `int(str)`, `os.path.basename`
 * and slicing with Python's index rules. Characters are restricted to the cases
 * the model needs (ASCII case folding, ASCII digits).
 */
module PyStr {
  import opened Wrappers

  /** `pat` occurs in `s` starting at index `i`. */
  predicate StartsAt(s: string, pat: string, i: nat)
  {
    i + |pat| <= |s| && s[i..i + |pat|] == pat
  }

  /** Python's `pat in s`. */
  predicate Contains(s: string, pat: string)
  {
    exists i: nat | i <= |s| :: StartsAt(s, pat, i)
  }

  /** Python's `s.endswith(suffix)`. */
  predicate EndsWith(s: string, suffix: string)
  {
    |suffix| <= |s| && s[|s| - |suffix|..] == suffix
  }

  /** Python's `s.find(pat, from)`: the leftmost occurrence at or after `from`. */
  function Find(s: string, pat: string, from: nat): (r: Option<nat>)
    requires from <= |s|
    ensures r.Some? ==> from <= r.value <= |s| && StartsAt(s, pat, r.value)
    ensures r.Some? ==> forall j: nat :: from <= j < r.value ==> !StartsAt(s, pat, j)
    ensures r.None? ==> forall j: nat :: from <= j <= |s| ==> !StartsAt(s, pat, j)
    decreases |s| - from
  {
    if StartsAt(s, pat, from) then Some(from)
    else if from == |s| then None
    else Find(s, pat, from + 1)
  }

  /** Python's `s.split(sep)` for a non-empty separator. */
  function Split(s: string, sep: string): (parts: seq<string>)
    requires sep != []
    ensures |parts| >= 1
    decreases |s|
  {
    match Find(s, sep, 0)
    case None => [s]
    case Some(k) => [s[..k]] + Split(s[k + |sep|..], sep)
  }

  /** Python's `sep.join(parts)`; the empty list joins to `""`. */
  function Join(parts: seq<string>, sep: string): string
  {
    if |parts| == 0 then ""
    else if |parts| == 1 then parts[0]
    else parts[0] + sep + Join(parts[1..], sep)
  }

  /** Splitting and joining again with the same separator gives back the text. */
  lemma {:induction false} JoinSplit(s: string, sep: string)
    requires sep != []
    ensures Join(Split(s, sep), sep) == s
    decreases |s|
  {
    var f := Find(s, sep, 0);
    if f.Some? {
      var k := f.value;
      var rest := s[k + |sep|..];
      calc {
        Join(Split(s, sep), sep);
        Join([s[..k]] + Split(rest, sep), sep);
        { JoinCons(s[..k], Split(rest, sep), sep); }
        s[..k] + sep + Join(Split(rest, sep), sep);
        { JoinSplit(rest, sep); }
        s[..k] + sep + rest;
        { ThreeParts(s, k, |sep|); }
        s;
      }
    }
  }

  /** A text is the part before `k`, the `n` characters from `k`, and the rest. */
  lemma ThreeParts(s: string, k: nat, n: nat)
    requires k + n <= |s|
    ensures s[..k] + s[k..k + n] + s[k + n..] == s
  {
  }

  /** Joining a part in front of a non-empty list puts one separator between them. */
  lemma JoinCons(head: string, tail: seq<string>, sep: string)
    requires tail != []
    ensures Join([head] + tail, sep) == head + sep + Join(tail, sep)
  {
    assert ([head] + tail)[1..] == tail;
  }

  /** No piece produced by `split` contains the separator. */
  lemma {:induction false} SplitPiecesFree(s: string, sep: string)
    requires sep != []
    ensures forall p <- Split(s, sep) :: !Contains(p, sep)
    decreases |s|
  {
    match Find(s, sep, 0)
    case None =>
      assert Split(s, sep) == [s];
    case Some(k) =>
      var rest := s[k + |sep|..];
      SplitPiecesFree(rest, sep);
      BeforeFirstFree(s, sep, k);
      assert Split(s, sep) == [s[..k]] + Split(rest, sep);
  }

  /** The text before the first occurrence of `sep` does not contain it. */
  lemma BeforeFirstFree(s: string, sep: string, k: nat)
    requires sep != [] && Find(s, sep, 0) == Some(k)
    ensures !Contains(s[..k], sep)
  {
    var head := s[..k];
    forall i: nat | i <= |head| ensures !StartsAt(head, sep, i) {
      if i + |sep| <= |head| {
        assert s[i..i + |sep|] == head[i..i + |sep|];
        assert !StartsAt(s, sep, i);
      }
    }
  }

  /** The last element of a non-empty sequence, Python's `xs[-1]`. */
  function Last<T>(xs: seq<T>): T
    requires xs != []
  {
    xs[|xs| - 1]
  }

  /** Python's `s.replace(pat, repl)` for a non-empty `pat`: one left-to-right pass over non-overlapping occurrences. */
  function Replace(s: string, pat: string, repl: string): string
    requires pat != []
    decreases |s|
  {
    if s == [] then []
    else if StartsAt(s, pat, 0) then repl + Replace(s[|pat|..], pat, repl)
    else [s[0]] + Replace(s[1..], pat, repl)
  }

  /** Every character of a replacement's result comes from the text or from the replacement string. */
  lemma {:induction false} ReplaceChars(s: string, pat: string, repl: string, c: char)
    requires pat != []
    requires c in Replace(s, pat, repl)
    ensures c in s || c in repl
    decreases |s|
  {
    if s == [] {
    } else if StartsAt(s, pat, 0) {
      if c !in repl {
        ReplaceChars(s[|pat|..], pat, repl, c);
      }
    } else if c != s[0] {
      ReplaceChars(s[1..], pat, repl, c);
    }
  }

  /** Replacing a single character by a string free of it removes every occurrence of that character. */
  lemma {:induction false} ReplaceRemovesChar(s: string, c: char, repl: string)
    requires c !in repl
    ensures c !in Replace(s, [c], repl)
    decreases |s|
  {
    if s != [] {
      ReplaceRemovesChar(s[1..], c, repl);
      if s[0] == c {
        assert StartsAt(s, [c], 0) by { assert s[0..1] == [c]; }
        assert Replace(s, [c], repl) == repl + Replace(s[1..], [c], repl);
      } else {
        assert !StartsAt(s, [c], 0) by { assert s[0..1] == [s[0]]; }
        assert Replace(s, [c], repl) == [s[0]] + Replace(s[1..], [c], repl);
      }
    }
  }

  /** Replacing one character by another maps each character in place. */
  lemma {:induction false} ReplaceCharMap(s: string, c: char, d: char)
    ensures |Replace(s, [c], [d])| == |s|
    ensures forall k :: 0 <= k < |s| ==> Replace(s, [c], [d])[k] == (if s[k] == c then d else s[k])
    decreases |s|
  {
    if s != [] {
      ReplaceCharMap(s[1..], c, d);
      assert s[0..1] == [s[0]];
      assert Replace(s, [c], [d]) == [if s[0] == c then d else s[0]] + Replace(s[1..], [c], [d]);
    }
  }

  /** Text without an occurrence of `pat` is left unchanged. */
  lemma {:induction false} ReplaceAbsent(s: string, pat: string, repl: string)
    requires pat != []
    requires !Contains(s, pat)
    ensures Replace(s, pat, repl) == s
    decreases |s|
  {
    if s != [] {
      assert !StartsAt(s, pat, 0);
      forall i: nat | i <= |s[1..]| ensures !StartsAt(s[1..], pat, i) {
        assert !StartsAt(s, pat, i + 1);
        if i + |pat| <= |s[1..]| {
          assert s[1..][i..i + |pat|] == s[i + 1..i + 1 + |pat|];
        }
      }
      ReplaceAbsent(s[1..], pat, repl);
    }
  }

  /** Python's `str.lower()` restricted to ASCII letters. */
  function LowerChar(c: char): char
  {
    if 'A' <= c <= 'Z' then (c as int - 'A' as int + 'a' as int) as char else c
  }

  function ToLower(s: string): (r: string)
    ensures |r| == |s|
    ensures forall i :: 0 <= i < |s| ==> r[i] == LowerChar(s[i])
  {
    seq(|s|, i requires 0 <= i < |s| => LowerChar(s[i]))
  }

  /** Lowering twice is lowering once. */
  lemma ToLowerIdempotent(s: string)
    ensures ToLower(ToLower(s)) == ToLower(s)
  {
  }

  predicate IsDigit(c: char)
  {
    '0' <= c <= '9'
  }

  predicate AllDigits(s: string)
  {
    forall i :: 0 <= i < |s| ==> IsDigit(s[i])
  }

  function DigitChar(d: nat): (c: char)
    requires d < 10
    ensures IsDigit(c)
  {
    ('0' as int + d) as char
  }

  function DigitValue(c: char): (d: nat)
    requires IsDigit(c)
    ensures d < 10
  {
    c as int - '0' as int
  }

  /** Python's `str(n)` for a natural number: decimal, no leading zero. */
  function NatToString(n: nat): (s: string)
    ensures |s| >= 1 && AllDigits(s)
  {
    if n < 10 then [DigitChar(n)] else NatToString(n / 10) + [DigitChar(n % 10)]
  }

  /** Python's `str(i)` for any integer. */
  function IntToString(i: int): string
  {
    if i < 0 then "-" + NatToString(-i) else NatToString(i)
  }

  /** The value of a string of decimal digits. */
  function ParseNat(s: string): nat
    requires AllDigits(s)
  {
    if s == [] then 0 else ParseNat(s[..|s| - 1]) * 10 + DigitValue(s[|s| - 1])
  }

  /** Python's `int(s)`: an optional sign and at least one decimal digit; anything else fails. */
  function ParseInt(s: string): Option<int>
  {
    if |s| >= 2 && s[0] == '-' && AllDigits(s[1..]) then Some(-(ParseNat(s[1..]) as int))
    else if |s| >= 2 && s[0] == '+' && AllDigits(s[1..]) then Some(ParseNat(s[1..]))
    else if |s| >= 1 && AllDigits(s) then Some(ParseNat(s))
    else None
  }

  /** Reading back the decimal form of a number gives the number. */
  lemma {:induction false} ParseNatToString(n: nat)
    ensures ParseNat(NatToString(n)) == n
  {
    if n >= 10 {
      ParseNatToString(n / 10);
      var s := NatToString(n);
      assert s[..|s| - 1] == NatToString(n / 10);
    }
  }

  /** `int(str(i)) == i` for every integer. */
  lemma ParseIntToString(i: int)
    ensures ParseInt(IntToString(i)) == Some(i)
  {
    if i < 0 {
      ParseNegative(-i);
    } else {
      ParseNonNegative(i);
    }
  }

  /** `int` reads back a minus sign followed by a decimal form. */
  lemma ParseNegative(n: nat)
    ensures ParseInt("-" + NatToString(n)) == Some(-(n as int))
  {
    var t := NatToString(n);
    var s := "-" + t;
    assert |s| >= 2 && s[0] == '-' && s[1..] == t;
    ParseNatToString(n);
  }

  /** `int` reads back a decimal form. */
  lemma ParseNonNegative(n: nat)
    ensures ParseInt(NatToString(n)) == Some(n)
  {
    var s := NatToString(n);
    ParseNatToString(n);
    assert IsDigit(s[0]);
  }

  /** Distinct numbers have distinct decimal forms. */
  lemma NatToStringInjective(m: nat, n: nat)
    requires NatToString(m) == NatToString(n)
    ensures m == n
  {
    ParseNatToString(m);
    ParseNatToString(n);
  }

  /** Python's normalisation of one slice bound against a length. */
  function SliceBound(i: int, len: nat): (b: nat)
    ensures b <= len
  {
    if i < 0 then (if i + len < 0 then 0 else i + len)
    else if i > len then len
    else i
  }

  /** Python's `xs[a:b]`: negative bounds count from the end, an empty range gives `[]`. */
  function PySlice<T>(xs: seq<T>, a: int, b: int): seq<T>
  {
    var lo, hi := SliceBound(a, |xs|), SliceBound(b, |xs|);
    if lo < hi then xs[lo..hi] else []
  }

  /** The text after the last `/`, Python's `s.split('/')[-1]` and `os.path.basename(s)`. */
  function LastSegment(s: string): string
  {
    Last(Split(s, "/"))
  }

  /** `LastSegment` has no `/`, and the text is some prefix that is empty or ends in `/`, followed by it. */
  lemma LastSegmentSpec(s: string)
    ensures '/' !in LastSegment(s)
    ensures EndsWith(s, LastSegment(s))
    ensures var prefix := s[..|s| - |LastSegment(s)|]; prefix == [] || Last(prefix) == '/'
    ensures '/' !in s ==> LastSegment(s) == s
  {
    var parts := Split(s, "/");
    SplitPiecesFree(s, "/");
    var last := Last(parts);
    assert last in parts;
    assert '/' !in last by {
      if '/' in last {
        var i :| 0 <= i < |last| && last[i] == '/';
        assert StartsAt(last, "/", i);
      }
    }
    JoinSplit(s, "/");
    if |parts| == 1 {
      assert s == last;
    } else {
      JoinLast(parts, "/");
      assert s == Join(parts[..|parts| - 1], "/") + "/" + last;
    }
    if |parts| > 1 {
      assert s[|s| - |last| - 1] == '/';
    }
  }

  /** Joining peels off the last part behind one separator. */
  lemma {:induction false} JoinLast(parts: seq<string>, sep: string)
    requires |parts| >= 2
    ensures Join(parts, sep) == Join(parts[..|parts| - 1], sep) + sep + Last(parts)
    decreases |parts|
  {
    if |parts| > 2 {
      JoinLast(parts[1..], sep);
      assert parts[1..][..|parts| - 2] == parts[..|parts| - 1][1..];
    }
  }

  /** A one-character pattern occurs exactly where the character does. */
  lemma CharContains(s: string, c: char)
    ensures Contains(s, [c]) <==> c in s
  {
    if c in s {
      var i :| 0 <= i < |s| && s[i] == c;
      assert s[i..i + 1] == [c];
      assert StartsAt(s, [c], i);
    }
    if Contains(s, [c]) {
      var i: nat :| i <= |s| && StartsAt(s, [c], i);
      assert s[i] == s[i..i + 1][0];
    }
  }

  /** A text splits into one piece exactly when it has no separator character. */
  lemma SplitSingle(s: string, c: char)
    ensures |Split(s, [c])| == 1 <==> c !in s
  {
    CharContains(s, c);
    match Find(s, [c], 0)
    case None =>
    case Some(k) =>
      assert Split(s, [c]) == [s[..k]] + Split(s[k + 1..], [c]);
  }

  /** The first separator of `a + [c] + b` is the first one of `a`, or the added one. */
  lemma FindSnoc(a: string, c: char, b: string)
    ensures Find(a + [c] + b, [c], 0) == (match Find(a, [c], 0) case None => Some(|a|) case Some(k) => Some(k))
  {
    var s := a + [c] + b;
    assert StartsAt(s, [c], |a|) by { assert s[|a|..|a| + 1] == [c]; }
    forall j: nat | j < |a| ensures StartsAt(s, [c], j) == StartsAt(a, [c], j) {
      assert s[j..j + 1] == a[j..j + 1];
    }
  }

  /** Text after the last separator character becomes the last piece of the split. */
  lemma {:induction false} SplitSnoc(a: string, c: char, b: string)
    requires c !in b
    ensures Split(a + [c] + b, [c]) == Split(a, [c]) + [b]
    decreases |a|
  {
    var s := a + [c] + b;
    FindSnoc(a, c, b);
    CharContains(b, c);
    match Find(a, [c], 0)
    case None =>
      assert s[..|a|] == a && s[|a| + 1..] == b;
      calc {
        Split(s, [c]);
        [a] + Split(b, [c]);
        [a] + [b];
        Split(a, [c]) + [b];
      }
    case Some(k) =>
      var rest := a[k + 1..];
      assert s[..k] == a[..k] && s[k + 1..] == rest + [c] + b;
      calc {
        Split(s, [c]);
        [a[..k]] + Split(rest + [c] + b, [c]);
        { SplitSnoc(rest, c, b); }
        [a[..k]] + (Split(rest, [c]) + [b]);
        ([a[..k]] + Split(rest, [c])) + [b];
        Split(a, [c]) + [b];
      }
  }

  /** `LastSegment` of a text ending in `/` and a slash-free segment is that segment. */
  lemma LastSegmentSnoc(a: string, b: string)
    requires '/' !in b
    ensures LastSegment(a + "/" + b) == b
  {
    SplitSnoc(a, '/', b);
  }

  /** A replacement pass leaves alone a prefix that never holds the pattern's first character. */
  lemma {:induction false} ReplaceSkipsPrefix(a: string, rest: string, pat: string, repl: string)
    requires pat != [] && pat[0] !in a
    ensures Replace(a + rest, pat, repl) == a + Replace(rest, pat, repl)
    decreases |a|
  {
    if a != [] {
      var s := a + rest;
      assert s[0] == a[0];
      assert !StartsAt(s, pat, 0);
      assert s[1..] == a[1..] + rest;
      ReplaceSkipsPrefix(a[1..], rest, pat, repl);
      calc {
        Replace(s, pat, repl);
        [a[0]] + Replace(a[1..] + rest, pat, repl);
        [a[0]] + (a[1..] + Replace(rest, pat, repl));
        { assert a == [a[0]] + a[1..]; }
        a + Replace(rest, pat, repl);
      }
    } else {
      assert a + rest == rest;
    }
  }

  /** A replacement pass drops an occurrence at the very start and continues after it. */
  lemma ReplaceAtStart(s: string, pat: string, repl: string)
    requires pat != []
    ensures Replace(pat + s, pat, repl) == repl + Replace(s, pat, repl)
  {
    assert (pat + s)[..|pat|] == pat;
    assert (pat + s)[|pat|..] == s;
  }

  /** A text without the pattern's first character does not contain the pattern. */
  lemma FirstCharAbsent(s: string, pat: string)
    requires pat != [] && pat[0] !in s
    ensures !Contains(s, pat)
  {
    forall i: nat | i <= |s| ensures !StartsAt(s, pat, i) {
      if i + |pat| <= |s| {
        assert s[i..i + |pat|][0] == s[i];
      }
    }
  }

  /** Deleting a pattern whose first character occurs nowhere else removes just that occurrence. */
  lemma ReplaceBetween(a: string, pat: string, b: string)
    requires pat != [] && pat[0] !in a && pat[0] !in b
    ensures Replace(a + pat + b, pat, "") == a + b
  {
    calc {
      Replace(a + pat + b, pat, "");
      { assert a + pat + b == a + (pat + b); ReplaceSkipsPrefix(a, pat + b, pat, ""); }
      a + Replace(pat + b, pat, "");
      { ReplaceAtStart(b, pat, ""); }
      a + ("" + Replace(b, pat, ""));
      { FirstCharAbsent(b, pat); ReplaceAbsent(b, pat, ""); assert "" + b == b; }
      a + b;
    }
  }
}

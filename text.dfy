/**
 * String operations the source takes from its runtime (JavaScript's `split`,
 * `trim`, `includes`, `replace`, `toLowerCase`, `join`, and Python's `str`
 * formatting of integers), written out once and shared by every module.
 */
module Text {
  import opened Wrappers

  // ---------------------------------------------------------------- characters

  /** White space as JavaScript's `\s` and `String.prototype.trim` define it. */
  predicate IsSpace(c: char) {
    var n := c as int;
    (9 <= n <= 13) || n == 32 || n == 0xA0 || n == 0x1680 || (0x2000 <= n <= 0x200A)
    || n == 0x2028 || n == 0x2029 || n == 0x202F || n == 0x205F || n == 0x3000 || n == 0xFEFF
  }

  predicate AllSpace(s: string) {
    forall i :: 0 <= i < |s| ==> IsSpace(s[i])
  }

  function LowerChar(c: char): char {
    if 'A' <= c <= 'Z' then (c as int + 32) as char else c
  }

  function UpperChar(c: char): char {
    if 'a' <= c <= 'z' then (c as int - 32) as char else c
  }

  /** `s.toLowerCase()` on the ASCII letters. */
  function Lower(s: string): (r: string)
    ensures |r| == |s|
    ensures forall i :: 0 <= i < |s| ==> r[i] == LowerChar(s[i])
  {
    seq(|s|, i requires 0 <= i < |s| => LowerChar(s[i]))
  }

  /** Lower-casing a literal of at most 36 characters, checked a third at a time. */
  lemma {:induction false} LowerLiteral(q: string, key: string)
    requires |q| == |key| <= 36
    requires forall i | 0 <= i < 12 && i < |q| :: LowerChar(q[i]) == key[i]
    requires forall i | 12 <= i < 24 && i < |q| :: LowerChar(q[i]) == key[i]
    requires forall i | 24 <= i < |q| :: LowerChar(q[i]) == key[i]
    ensures Lower(q) == key
  {
    forall i | 0 <= i < |q| ensures Lower(q)[i] == key[i] {
      if i < 12 {} else if i < 24 {} else {}
    }
  }

  // ---------------------------------------------------------------- substrings

  predicate IsPrefix(p: string, s: string) {
    |p| <= |s| && s[..|p|] == p
  }

  /** `s.includes(sub)` / Python's `sub in s`. */
  predicate Contains(s: string, sub: string) {
    exists i :: 0 <= i <= |s| - |sub| && IsPrefix(sub, s[i..])
  }

  lemma {:induction false} ContainsSelf(s: string)
    ensures Contains(s, s)
  {
    assert IsPrefix(s, s[0..]);
  }

  /** A string cannot contain a longer one. */
  lemma {:induction false} NotContainsLonger(s: string, sub: string)
    requires |s| < |sub|
    ensures !Contains(s, sub)
  {
  }

  /** A string cannot contain a string holding a character it lacks. */
  lemma {:induction false} NotContainsMissingChar(s: string, sub: string, k: nat)
    requires k < |sub| && sub[k] !in s
    ensures !Contains(s, sub)
  {
  }

  /** The first position of `sub` in `s` (`s.indexOf(sub)`), if any. */
  function IndexOf(s: string, sub: string): (r: Option<nat>)
    ensures r.Some? ==> r.value + |sub| <= |s| && s[r.value..r.value + |sub|] == sub
    ensures r.Some? ==> forall j :: 0 <= j < r.value ==> !IsPrefix(sub, s[j..])
    ensures r.None? <==> !Contains(s, sub)
    decreases |s|
  {
    if |s| < |sub| then None
    else if IsPrefix(sub, s) then
      assert s[0..] == s;
      Some(0)
    else match IndexOf(s[1..], sub)
      case None =>
        assert forall i :: 1 <= i <= |s| - |sub| ==> s[i..] == s[1..][i - 1..];
        None
      case Some(k) =>
        assert forall j :: 1 <= j <= k ==> s[j..] == s[1..][j - 1..];
        Some(k + 1)
  }

  /** `s.replace(pat, rep)` with a string pattern: only the first occurrence. */
  function ReplaceFirst(s: string, pat: string, rep: string): (r: string)
    ensures !Contains(s, pat) ==> r == s
    ensures Contains(s, pat) ==> exists i :: 0 <= i <= |s| - |pat| && s[i..i + |pat|] == pat
                                             && r == s[..i] + rep + s[i + |pat|..]
  {
    match IndexOf(s, pat)
    case None => s
    case Some(i) => s[..i] + rep + s[i + |pat|..]
  }

  // ---------------------------------------------------------------- split and join

  /** `xs.join(sep)`. */
  function Join(xs: seq<string>, sep: string): string
    decreases |xs|
  {
    if |xs| == 0 then ""
    else if |xs| == 1 then xs[0]
    else xs[0] + sep + Join(xs[1..], sep)
  }

  /** `s.split(sep)` for a one-character separator: the pieces between separators, never none. */
  function Split(s: string, sep: char): (r: seq<string>)
    ensures |r| >= 1
    ensures forall k :: 0 <= k < |r| ==> sep !in r[k]
    decreases |s|
  {
    if s == [] then [""]
    else if s[0] == sep then [""] + Split(s[1..], sep)
    else
      var t := Split(s[1..], sep);
      [[s[0]] + t[0]] + t[1..]
  }

  /** Joining the pieces with the separator gives back the string. */
  lemma {:induction false} SplitJoin(s: string, sep: char)
    ensures Join(Split(s, sep), [sep]) == s
    decreases |s|
  {
    if s != [] {
      var t := Split(s[1..], sep);
      SplitJoin(s[1..], sep);
      var r := Split(s, sep);
      if s[0] == sep {
        assert r == [""] + t && r[1..] == t;
        assert s == [sep] + s[1..];
      } else {
        assert r == [[s[0]] + t[0]] + t[1..];
        if |t| >= 2 {
          assert r[1..] == t[1..];
          assert Join(t, [sep]) == t[0] + [sep] + Join(t[1..], [sep]);
        }
        assert s == [s[0]] + s[1..];
      }
    }
  }

  /** Only one piece means no separator at all: the piece is the string itself. */
  lemma {:induction false} SplitSingle(s: string, sep: char)
    requires |Split(s, sep)| == 1
    ensures Split(s, sep) == [s] && sep !in s
  {
    SplitJoin(s, sep);
  }

  lemma {:induction false} SplitNoSep(s: string, sep: char)
    requires sep !in s
    ensures Split(s, sep) == [s]
    decreases |s|
  {
    if s != [] {
      assert s[0] != sep && sep !in s[1..];
      SplitNoSep(s[1..], sep);
      assert s == [s[0]] + s[1..];
    }
  }

  /** `email.split('@')[0]` in both Python and JavaScript: the text before the first `@`, or all of it. */
  function EmailPrefix(email: string): (r: string)
    ensures '@' !in r && IsPrefix(r, email)
    ensures r != email ==> email[|r|] == '@'
  {
    var r := Split(email, '@')[0];
    SplitFirst(email, '@');
    r
  }

  lemma {:induction false} SplitFirst(s: string, sep: char)
    ensures IsPrefix(Split(s, sep)[0], s)
    ensures Split(s, sep)[0] != s ==> s[|Split(s, sep)[0]|] == sep
    decreases |s|
  {
    if s != [] && s[0] != sep {
      SplitFirst(s[1..], sep);
    }
  }

  /** Splitting distributes over a separator: the pieces on either side are concatenated. */
  lemma {:induction false} SplitAround(a: string, b: string, sep: char)
    ensures Split(a + [sep] + b, sep) == Split(a, sep) + Split(b, sep)
    decreases |a|
  {
    var s := a + [sep] + b;
    if a == [] {
      assert s == [sep] + b && s[1..] == b;
    } else {
      SplitAround(a[1..], b, sep);
      assert s[1..] == a[1..] + [sep] + b && s[0] == a[0];
      if a[0] == sep {
        SplitAroundAtSep(a, b, sep);
      } else {
        SplitAroundAtChar(a, b, sep);
      }
    }
  }

  lemma {:induction false} SplitAroundAtSep(a: string, b: string, sep: char)
    requires a != [] && a[0] == sep
    requires (a + [sep] + b)[1..] == a[1..] + [sep] + b && (a + [sep] + b)[0] == sep
    requires Split(a[1..] + [sep] + b, sep) == Split(a[1..], sep) + Split(b, sep)
    ensures Split(a + [sep] + b, sep) == Split(a, sep) + Split(b, sep)
  {
    var pa', pb := Split(a[1..], sep), Split(b, sep);
    assert Split(a + [sep] + b, sep) == [""] + (pa' + pb);
    assert Split(a, sep) == [""] + pa';
    assert [""] + (pa' + pb) == ([""] + pa') + pb;
  }

  lemma {:induction false} SplitAroundAtChar(a: string, b: string, sep: char)
    requires a != [] && a[0] != sep
    requires (a + [sep] + b)[1..] == a[1..] + [sep] + b && (a + [sep] + b)[0] == a[0]
    requires Split(a[1..] + [sep] + b, sep) == Split(a[1..], sep) + Split(b, sep)
    ensures Split(a + [sep] + b, sep) == Split(a, sep) + Split(b, sep)
  {
    var s := a + [sep] + b;
    var t := Split(s[1..], sep);
    assert Split(s, sep) == [[a[0]] + t[0]] + t[1..];
    assert Split(a, sep) == [[a[0]] + Split(a[1..], sep)[0]] + Split(a[1..], sep)[1..];
    ConsPiece(a[0], t, Split(a[1..], sep), Split(b, sep));
  }

  /** Sequence bookkeeping: a character prepended to the first piece of a concatenation of splits. */
  lemma {:induction false} ConsPiece(c: char, t: seq<string>, xs: seq<string>, ys: seq<string>)
    requires |xs| >= 1 && t == xs + ys
    ensures [[c] + t[0]] + t[1..] == ([[c] + xs[0]] + xs[1..]) + ys
  {
    assert t[0] == xs[0] && t[1..] == xs[1..] + ys;
  }

  /** All pieces but the last: the complete ones. */
  function Init(xs: seq<string>): seq<string>
    requires |xs| >= 1
  {
    xs[..|xs| - 1]
  }

  /** The last piece: the one still open to further text. */
  function Last(xs: seq<string>): string
    requires |xs| >= 1
  {
    xs[|xs| - 1]
  }

  /** The last piece is the text after the last separator, or the whole string when there is none. */
  lemma {:induction false} SplitLast(s: string, sep: char)
    ensures var l := Last(Split(s, sep));
            |l| <= |s| && l == s[|s| - |l|..]
            && (|l| == |s| || s[|s| - |l| - 1] == sep)
    decreases |s|
  {
    if s != [] {
      var u := s[1..];
      SplitLast(u, sep);
      var t := Split(u, sep);
      var l := Last(t);
      if s[0] != sep && |t| == 1 {
        SplitSingle(u, sep);
        assert Last(Split(s, sep)) == [s[0]] + u == s;
      } else {
        assert Last(Split(s, sep)) == l by {
          if s[0] == sep {
            assert Split(s, sep) == [""] + t;
          } else {
            assert Split(s, sep) == [[s[0]] + t[0]] + t[1..];
          }
        }
        assert s[|s| - |l|..] == u[|u| - |l|..];
        if s[0] != sep && sep !in u {
          SplitNoSep(u, sep);
        }
        if |l| < |u| {
          assert s[|s| - |l| - 1] == u[|u| - |l| - 1];
        }
      }
    }
  }

  /**
   * Appending text only extends the last piece: every earlier piece is already
   * complete. This is what makes a line buffer independent of chunk boundaries.
   */
  lemma {:induction false} SplitAppend(a: string, b: string, sep: char)
    ensures Split(a + b, sep) == Init(Split(a, sep)) + Split(Last(Split(a, sep)) + b, sep)
    decreases |a|
  {
    if a == [] {
      assert a + b == b && Last(Split(a, sep)) + b == b;
    } else {
      var a' := a[1..];
      assert (a + b)[1..] == a' + b && (a + b)[0] == a[0];
      SplitAppend(a', b, sep);
      if a[0] == sep {
        SplitAppendAtSep(a, b, sep);
      } else {
        SplitAppendAtChar(a, b, sep);
      }
    }
  }

  lemma {:induction false} SplitAppendAtSep(a: string, b: string, sep: char)
    requires a != [] && a[0] == sep && (a + b)[1..] == a[1..] + b
    requires Split(a[1..] + b, sep) == Init(Split(a[1..], sep)) + Split(Last(Split(a[1..], sep)) + b, sep)
    ensures Split(a + b, sep) == Init(Split(a, sep)) + Split(Last(Split(a, sep)) + b, sep)
  {
    var ab := a + b;
    var pa' := Split(a[1..], sep);
    var rest := Split(Last(pa') + b, sep);
    assert ab[0] == sep;
    assert Split(ab, sep) == [""] + (Init(pa') + rest);
    assert Split(a, sep) == [""] + pa';
    InitLastCons("", pa');
    assert [""] + (Init(pa') + rest) == ([""] + Init(pa')) + rest;
  }

  /** Init and Last of a list with one more piece in front. */
  lemma {:induction false} InitLastCons(x: string, xs: seq<string>)
    requires |xs| >= 1
    ensures Init([x] + xs) == [x] + Init(xs) && Last([x] + xs) == Last(xs)
  {
    assert ([x] + xs)[..|xs|] == [x] + xs[..|xs| - 1];
  }

  lemma {:induction false} SplitAppendAtChar(a: string, b: string, sep: char)
    requires a != [] && a[0] != sep && (a + b)[1..] == a[1..] + b && (a + b)[0] == a[0]
    requires Split(a[1..] + b, sep) == Init(Split(a[1..], sep)) + Split(Last(Split(a[1..], sep)) + b, sep)
    ensures Split(a + b, sep) == Init(Split(a, sep)) + Split(Last(Split(a, sep)) + b, sep)
  {
    var a' := a[1..];
    var pa, pa' := Split(a, sep), Split(a', sep);
    var t := Split(a' + b, sep);
    assert Split(a + b, sep) == [[a[0]] + t[0]] + t[1..];
    assert pa == [[a[0]] + pa'[0]] + pa'[1..];
    if |pa'| == 1 {
      SplitSingle(a', sep);
      assert pa == [a] by { assert a == [a[0]] + a'; }
    } else {
      PrependToFirst(a[0], t, pa, pa', Split(Last(pa') + b, sep));
      assert Last(pa) == Last(pa');
    }
  }

  /** Sequence bookkeeping for SplitAppendAtChar: prepending a character to the first piece. */
  lemma {:induction false} PrependToFirst(c: char, t: seq<string>, pa: seq<string>, pa': seq<string>, rest: seq<string>)
    requires |pa'| >= 2
    requires t == Init(pa') + rest
    requires pa == [[c] + pa'[0]] + pa'[1..]
    ensures [[c] + t[0]] + t[1..] == Init(pa) + rest
  {
    assert t[0] == pa'[0];
    assert t[1..] == pa'[1..|pa'| - 1] + rest;
    assert Init(pa) == [[c] + pa'[0]] + pa'[1..|pa'| - 1];
  }

  // ---------------------------------------------------------------- trimming

  /** The first position from `i` on that does not hold white space, or the end. */
  function SkipLeading(s: string, i: nat): (r: nat)
    requires i <= |s|
    ensures i <= r <= |s|
    ensures forall k :: i <= k < r ==> IsSpace(s[k])
    ensures r == |s| || !IsSpace(s[r])
    decreases |s| - i
  {
    if i < |s| && IsSpace(s[i]) then SkipLeading(s, i + 1) else i
  }

  /** Scanning back from `j`, but not past `lo`: one past the last position that does not hold white space. */
  function SkipTrailing(s: string, lo: nat, j: nat): (r: nat)
    requires lo <= j <= |s|
    ensures lo <= r <= j
    ensures forall k :: r <= k < j ==> IsSpace(s[k])
    ensures r == lo || !IsSpace(s[r - 1])
    decreases j
  {
    if lo < j && IsSpace(s[j - 1]) then SkipTrailing(s, lo, j - 1) else j
  }

  /** The two properties above determine the leading position. */
  lemma {:induction false} SkipLeadingTo(s: string, i: nat, m: nat)
    requires i <= m <= |s|
    requires forall k :: i <= k < m ==> IsSpace(s[k])
    requires m == |s| || !IsSpace(s[m])
    ensures SkipLeading(s, i) == m
    decreases m - i
  {
    if i < m {
      SkipLeadingTo(s, i + 1, m);
    }
  }

  /** The two properties above determine the trailing position. */
  lemma {:induction false} SkipTrailingTo(s: string, lo: nat, j: nat, m: nat)
    requires lo <= m <= j <= |s|
    requires forall k :: m <= k < j ==> IsSpace(s[k])
    requires m == lo || !IsSpace(s[m - 1])
    ensures SkipTrailing(s, lo, j) == m
    decreases j
  {
    if m < j {
      SkipTrailingTo(s, lo, j - 1, m);
    }
  }

  /** How much leading white space `trim()` removes. */
  function TrimOffset(s: string): (r: nat)
    ensures r <= |s| && AllSpace(s[..r])
  {
    SkipLeading(s, 0)
  }

  /** `s.trim()`: the text between the leading and the trailing white space. */
  function Trim(s: string): (r: string)
    ensures TrimOffset(s) + |r| <= |s| && r == s[TrimOffset(s)..TrimOffset(s) + |r|]
    ensures AllSpace(s[TrimOffset(s) + |r|..])
    ensures r == [] || (!IsSpace(r[0]) && !IsSpace(r[|r| - 1]))
  {
    var lo := SkipLeading(s, 0);
    var hi := SkipTrailing(s, lo, |s|);
    s[lo..hi]
  }

  /** Trimmed text has no white space at either end. */
  predicate IsTrimmed(s: string) {
    s == [] || (!IsSpace(s[0]) && !IsSpace(s[|s| - 1]))
  }

  /** Trimming removes exactly the white space around already trimmed text. */
  lemma {:induction false} TrimPadded(lead: string, t: string, trail: string)
    requires AllSpace(lead) && AllSpace(trail) && IsTrimmed(t)
    ensures Trim(lead + t + trail) == t
  {
    var x := lead + t + trail;
    var a, b := |lead|, |lead| + |t|;
    assert forall k :: 0 <= k < a ==> x[k] == lead[k];
    assert forall k :: b <= k < |x| ==> x[k] == trail[k - b];
    if t == [] {
      SkipLeadingTo(x, 0, |x|);
      SkipTrailingTo(x, |x|, |x|, |x|);
    } else {
      assert x[a] == t[0] && x[b - 1] == t[|t| - 1];
      SkipLeadingTo(x, 0, a);
      SkipTrailingTo(x, a, |x|, b);
      assert x[a..b] == t;
    }
  }

  // ---------------------------------------------------------------- concatenation

  /** `xs.join("")`. */
  function Concat(xs: seq<string>): string
    decreases |xs|
  {
    if xs == [] then "" else xs[0] + Concat(xs[1..])
  }

  lemma {:induction false} ConcatAppend(xs: seq<string>, ys: seq<string>)
    ensures Concat(xs + ys) == Concat(xs) + Concat(ys)
    decreases |xs|
  {
    if xs == [] {
      assert xs + ys == ys;
    } else {
      assert (xs + ys)[1..] == xs[1..] + ys;
      ConcatAppend(xs[1..], ys);
    }
  }

  /** The last piece comes last in the concatenation. */
  lemma {:induction false} ConcatSnoc(chunks: seq<string>)
    requires chunks != []
    ensures Concat(chunks) == Concat(chunks[..|chunks| - 1]) + chunks[|chunks| - 1]
  {
    var front, c := chunks[..|chunks| - 1], chunks[|chunks| - 1];
    assert chunks == front + [c];
    ConcatAppend(front, [c]);
    assert Concat([c]) == c by {
      assert [c][1..] == [];
    }
  }

  /** The concatenation of a prefix of the pieces is a prefix of the whole. */
  lemma {:induction false} ConcatPrefix(xs: seq<string>, k: nat)
    requires k <= |xs|
    ensures IsPrefix(Concat(xs[..k]), Concat(xs))
  {
    assert xs == xs[..k] + xs[k..];
    ConcatAppend(xs[..k], xs[k..]);
  }

  // ---------------------------------------------------------------- numbers

  function DigitChar(d: nat): (c: char)
    requires d < 10
    ensures '0' <= c <= '9'
  {
    ('0' as int + d) as char
  }

  /** Decimal text of a natural number (Python's `str(n)`, JavaScript's `` `${n}` ``). */
  function NatToString(n: nat): (r: string)
    ensures |r| >= 1 && (n >= 10 ==> |r| >= 2)
    ensures forall i :: 0 <= i < |r| ==> '0' <= r[i] <= '9'
    ensures r[|r| - 1] == DigitChar(n % 10)
    decreases n
  {
    if n < 10 then [DigitChar(n)] else NatToString(n / 10) + [DigitChar(n % 10)]
  }

  /** Different numbers have different decimal texts. */
  lemma {:induction false} NatToStringInjective(a: nat, b: nat)
    requires NatToString(a) == NatToString(b)
    ensures a == b
    decreases a
  {
    var sa, sb := NatToString(a), NatToString(b);
    var da, db := a % 10, b % 10;
    assert DigitChar(da) == DigitChar(db);
    assert da == db;
    if a >= 10 && b >= 10 {
      assert NatToString(a / 10) == sa[..|sa| - 1];
      assert NatToString(b / 10) == sb[..|sb| - 1];
      NatToStringInjective(a / 10, b / 10);
      assert a == 10 * (a / 10) + da && b == 10 * (b / 10) + db;
    }
  }
}

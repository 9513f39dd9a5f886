/** Small shared vocabulary: optional values, results, and the string
    operations the TypeScript sources use (`startsWith`, `endsWith`,
    `includes`, `join`, `split` and number-to-decimal conversion). */
module Base {

  datatype Option<+T> = None | Some(value: T) {
    /** `x ?? d` in the source. */
    function GetOr(default: T): T {
      match this
      case Some(v) => v
      case None => default
    }
  }

  /** A value or the message of the error the source throws. */
  datatype Result<+T> = Ok(value: T) | Err(error: string)

  predicate StartsWith(s: string, prefix: string) {
    |prefix| <= |s| && s[..|prefix|] == prefix
  }

  predicate EndsWith(s: string, suffix: string) {
    |suffix| <= |s| && s[|s| - |suffix|..] == suffix
  }

  /** `sub` occurs in `s` at offset `i`. */
  predicate OccursAt(s: string, sub: string, i: nat) {
    i + |sub| <= |s| && s[i..i + |sub|] == sub
  }

  /** `s.includes(sub)`: `sub` occurs at some offset of `s`. */
  predicate Contains(s: string, sub: string) {
    exists i: nat :: i <= |s| && OccursAt(s, sub, i)
  }

  /** A prefix is an occurrence. */
  lemma ContainsPrefix(s: string, sub: string)
    requires StartsWith(s, sub)
    ensures Contains(s, sub)
  {
    assert OccursAt(s, sub, 0);
  }

  /** An occurrence in the tail is an occurrence. */
  lemma ContainsTail(s: string, sub: string)
    requires |s| > 0 && Contains(s[1..], sub)
    ensures Contains(s, sub)
  {
    var i: nat :| i <= |s[1..]| && OccursAt(s[1..], sub, i);
    assert s[i + 1..i + 1 + |sub|] == s[1..][i..i + |sub|];
    assert OccursAt(s, sub, i + 1);
  }

  /** A string that occurs in `s` occurs in every extension of `s`. */
  lemma ContainsExtended(a: string, s: string, b: string, sub: string)
    requires Contains(s, sub)
    ensures Contains(a + s + b, sub)
  {
    var i: nat :| i <= |s| && OccursAt(s, sub, i);
    assert (a + s + b)[|a| + i..|a| + i + |sub|] == s[i..i + |sub|];
    assert OccursAt(a + s + b, sub, |a| + i);
  }

  /** An occurrence of `sub` at `i` puts `sub[k - i]` at every index `k`
      it covers. */
  lemma OccursAtIndex(s: string, sub: string, i: nat, k: nat)
    ensures OccursAt(s, sub, i) && i <= k < i + |sub| ==> sub[k - i] == s[k]
  {
    if OccursAt(s, sub, i) && i <= k < i + |sub| {
      assert s[i..i + |sub|][k - i] == s[k];
    }
  }

  /** An occurrence of `sub` in `a + [c] + b`, where `sub` lacks `c`, lies
      wholly in `a` or wholly in `b`. */
  lemma ContainsAcross(a: string, c: char, b: string, sub: string)
    requires c !in sub
    ensures Contains(a + [c] + b, sub) ==> Contains(a, sub) || Contains(b, sub)
  {
    var s := a + [c] + b;
    if Contains(s, sub) {
      var i: nat :| i <= |s| && OccursAt(s, sub, i);
      OccursAtIndex(s, sub, i, |a|);
      if i + |sub| <= |a| {
        assert s[i..i + |sub|] == a[i..i + |sub|];
        assert OccursAt(a, sub, i);
      } else if i > |a| {
        assert s[i..i + |sub|] == b[i - |a| - 1..i - |a| - 1 + |sub|];
        assert OccursAt(b, sub, i - |a| - 1);
      }
    }
  }

  /** A string lacking one character of `sub` does not contain `sub`. */
  lemma LacksChar(s: string, sub: string, k: nat)
    requires k < |sub| && sub[k] !in s
    ensures !Contains(s, sub)
  {
    forall i: nat | i + |sub| <= |s|
      ensures !OccursAt(s, sub, i)
    {
      assert s[i..i + |sub|][k] == s[i + k] && s[i + k] in s;
    }
  }

  /** A string lacking two adjacent characters of `sub` does not contain
      `sub`. */
  lemma LacksPair(s: string, sub: string, k: nat)
    requires k + 1 < |sub|
    requires forall i :: 0 <= i < |s| - 1 ==> !(s[i] == sub[k] && s[i + 1] == sub[k + 1])
    ensures !Contains(s, sub)
  {
    forall i: nat | i + |sub| <= |s|
      ensures !OccursAt(s, sub, i)
    {
      assert s[i..i + |sub|][k] == s[i + k] && s[i..i + |sub|][k + 1] == s[i + k + 1];
    }
  }

  /** `parts.join(sep)`. */
  function Join(parts: seq<string>, sep: string): (r: string)
    ensures |parts| == 0 ==> r == ""
    ensures |parts| == 1 ==> r == parts[0]
  {
    if |parts| == 0 then ""
    else if |parts| == 1 then parts[0]
    else parts[0] + sep + Join(parts[1..], sep)
  }

  /** Joining one more piece appends the separator and the piece. */
  lemma {:induction false} JoinAppend(parts: seq<string>, sep: string, x: string)
    requires |parts| >= 1
    ensures Join(parts + [x], sep) == Join(parts, sep) + sep + x
  {
    if |parts| > 1 {
      assert (parts + [x])[1..] == parts[1..] + [x];
      JoinAppend(parts[1..], sep, x);
    }
  }

  /** `s.split(sep)` for a one-character separator: never empty, and
      `""` splits into `[""]`. */
  function Split(s: string, sep: char): (r: seq<string>)
    ensures |r| >= 1
  {
    if |s| == 0 then [""]
    else
      var rest := Split(s[1..], sep);
      if s[0] == sep then [""] + rest else [[s[0]] + rest[0]] + rest[1..]
  }

  /** A piece that holds no separator splits into itself. */
  lemma {:induction false} SplitNoSep(a: string, sep: char)
    requires sep !in a
    ensures Split(a, sep) == [a]
  {
    if |a| > 0 {
      SplitNoSep(a[1..], sep);
      assert [a[0]] + a[1..] == a;
    }
  }

  /** Splitting `a + sep + b`, where `a` holds no separator, yields `a`
      followed by the pieces of `b`. */
  lemma {:induction false} SplitAfterPiece(a: string, sep: char, b: string)
    requires sep !in a
    ensures Split(a + [sep] + b, sep) == [a] + Split(b, sep)
  {
    if |a| == 0 {
      assert a + [sep] + b == [sep] + b;
      assert ([sep] + b)[1..] == b;
    } else {
      var s := a + [sep] + b;
      assert s[0] == a[0] && s[1..] == a[1..] + [sep] + b;
      SplitAfterPiece(a[1..], sep, b);
      assert [a[0]] + a[1..] == a;
    }
  }

  /** Splitting `s + sep + t`, where `t` holds no separator, yields the
      pieces of `s` followed by `t`. */
  lemma {:induction false} SplitBeforePiece(s: string, sep: char, t: string)
    requires sep !in t
    ensures Split(s + [sep] + t, sep) == Split(s, sep) + [t]
    decreases |s|
  {
    var x := s + [sep] + t;
    if |s| == 0 {
      assert x == [sep] + t && x[1..] == t;
      SplitNoSep(t, sep);
    } else {
      assert x[0] == s[0] && x[1..] == s[1..] + [sep] + t;
      SplitBeforePiece(s[1..], sep, t);
      var q := Split(s[1..], sep);
      if s[0] != sep {
        assert (q + [t])[0] == q[0] && (q + [t])[1..] == q[1..] + [t];
      }
    }
  }

  /** Joining pieces that hold no separator and splitting again gives the
      pieces back; with no pieces at all the round trip gives `[""]`. */
  lemma {:induction false} SplitJoin(parts: seq<string>, sep: char)
    requires |parts| >= 1
    requires forall i :: 0 <= i < |parts| ==> sep !in parts[i]
    ensures Split(Join(parts, [sep]), sep) == parts
  {
    if |parts| == 1 {
      SplitNoSep(parts[0], sep);
    } else {
      SplitJoin(parts[1..], sep);
      SplitAfterPiece(parts[0], sep, Join(parts[1..], [sep]));
      assert parts == [parts[0]] + parts[1..];
    }
  }

  function DigitChar(d: nat): (c: char)
    requires d < 10
    ensures '0' <= c <= '9'
  {
    "0123456789"[d]
  }

  lemma DigitCharValue(d: nat)
    requires d < 10
    ensures DigitChar(d) as int - '0' as int == d
  {
    assert "0123456789"[d] as int - '0' as int == d;
  }

  /** Decimal rendering of a natural number, as `String(n)` gives it. */
  function NatToString(n: nat): (r: string)
    ensures |r| >= 1
    ensures forall i :: 0 <= i < |r| ==> '0' <= r[i] <= '9'
    decreases n
  {
    if n < 10 then [DigitChar(n)] else NatToString(n / 10) + [DigitChar(n % 10)]
  }

  /** Decimal rendering of an integer; negative numbers get a leading `-`. */
  function IntToString(n: int): (r: string)
    ensures |r| >= 1
    ensures n >= 0 ==> r == NatToString(n)
    ensures n < 0 ==> r == "-" + NatToString(-n)
  {
    if n >= 0 then NatToString(n) else "-" + NatToString(-n)
  }

  /** Reading the decimal digits back gives the number. */
  function DigitsValue(s: string): nat
    requires forall i :: 0 <= i < |s| ==> '0' <= s[i] <= '9'
  {
    if |s| == 0 then 0 else DigitsValue(s[..|s| - 1]) * 10 + ((s[|s| - 1] as int) - ('0' as int))
  }

  lemma {:induction false} NatToStringRoundTrip(n: nat)
    ensures DigitsValue(NatToString(n)) == n
  {
    var r := NatToString(n);
    if n < 10 {
      assert "0123456789"[n] as int - '0' as int == n;
    } else {
      NatToStringRoundTrip(n / 10);
      var d := n % 10;
      assert r[..|r| - 1] == NatToString(n / 10);
      assert "0123456789"[d] as int - '0' as int == d;
    }
  }
}

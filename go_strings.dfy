/** The parts of Go's `strings` and `strconv` packages the enrichment code
    relies on, over sequences. Strings are sequences of characters. White
    space is Unicode's, as unicode.IsSpace defines it; case mapping is
    narrowed to ASCII letters. */
module GoStrings {
  import opened Base

  predicate HasPrefix<T(==)>(s: seq<T>, p: seq<T>) {
    |p| <= |s| && s[..|p|] == p
  }

  predicate HasSuffix<T(==)>(s: seq<T>, p: seq<T>) {
    |p| <= |s| && s[|s| - |p|..] == p
  }

  /** strings.TrimPrefix */
  function TrimPrefix<T(==)>(s: seq<T>, p: seq<T>): (r: seq<T>)
    ensures HasPrefix(s, p) ==> p + r == s
    ensures !HasPrefix(s, p) ==> r == s
  {
    if HasPrefix(s, p) then s[|p|..] else s
  }

  /** strings.TrimSuffix */
  function TrimSuffix<T(==)>(s: seq<T>, p: seq<T>): (r: seq<T>)
    ensures HasSuffix(s, p) ==> r + p == s
    ensures !HasSuffix(s, p) ==> r == s
  {
    if HasSuffix(s, p) then s[..|s| - |p|] else s
  }

  /** `sub` occurs in `s` starting at position i. */
  predicate OccursAt<T(==)>(s: seq<T>, sub: seq<T>, i: int) {
    0 <= i && i + |sub| <= |s| && s[i..i + |sub|] == sub
  }

  lemma OccursAtTail<T>(s: seq<T>, sub: seq<T>, j: int)
    requires |s| > 0 && 0 <= j
    ensures OccursAt(s, sub, j + 1) <==> OccursAt(s[1..], sub, j)
  {
    if j + 1 + |sub| <= |s| {
      assert s[1..][j..j + |sub|] == s[j + 1..j + 1 + |sub|];
    }
  }

  /** strings.Index: the first position at which `sub` occurs, or -1. */
  function Index<T(==)>(s: seq<T>, sub: seq<T>): (i: int)
    ensures -1 <= i <= |s|
    ensures i >= 0 ==> OccursAt(s, sub, i)
    ensures forall j :: 0 <= j && (i < 0 || j < i) ==> !OccursAt(s, sub, j)
    decreases |s|
  {
    if |s| < |sub| then -1
    else if s[..|sub|] == sub then 0
    else
      var k := Index(s[1..], sub);
      assert forall j :: 1 <= j ==> (OccursAt(s, sub, j) <==> OccursAt(s[1..], sub, j - 1)) by {
        forall j | 1 <= j ensures OccursAt(s, sub, j) <==> OccursAt(s[1..], sub, j - 1) {
          OccursAtTail(s, sub, j - 1);
        }
      }
      assert !OccursAt(s, sub, 0);
      if k < 0 then -1 else k + 1
  }

  /** strings.Contains */
  predicate Contains<T(==)>(s: seq<T>, sub: seq<T>) {
    Index(s, sub) >= 0
  }

  lemma ContainsAt<T>(s: seq<T>, sub: seq<T>, j: int)
    requires OccursAt(s, sub, j)
    ensures Contains(s, sub)
  {
  }

  /** A prefix of s that ends before the first occurrence of sub does not contain it. */
  lemma NotContainsBeforeIndex<T>(s: seq<T>, sub: seq<T>, i: int)
    requires |sub| > 0 && 0 <= i <= |s|
    requires forall j :: 0 <= j < i ==> !OccursAt(s, sub, j)
    ensures !Contains(s[..i], sub)
  {
    if Contains(s[..i], sub) {
      var j := Index(s[..i], sub);
      assert s[..i][j..j + |sub|] == s[j..j + |sub|];
      assert OccursAt(s, sub, j);
    }
  }

  /** strings.IndexByte / IndexRune: the first position of x, or -1. */
  function FirstIndexOf<T(==)>(s: seq<T>, x: T): (i: int)
    ensures -1 <= i < |s|
    ensures i >= 0 ==> s[i] == x && x !in s[..i]
    ensures i < 0 ==> x !in s
  {
    if |s| == 0 then -1
    else if s[0] == x then 0
    else
      var k := FirstIndexOf(s[1..], x);
      assert s[1..][..if k < 0 then 0 else k] == s[1..if k < 0 then 1 else k + 1];
      if k < 0 then -1 else k + 1
  }

  /** strings.LastIndex for a one-element separator: the last position of x, or -1. */
  function LastIndexOf<T(==)>(s: seq<T>, x: T): (i: int)
    ensures -1 <= i < |s|
    ensures i >= 0 ==> s[i] == x && x !in s[i + 1..]
    ensures i < 0 ==> x !in s
  {
    if |s| == 0 then -1
    else if s[|s| - 1] == x then |s| - 1
    else
      var k := LastIndexOf(s[..|s| - 1], x);
      assert k >= 0 ==> s[k + 1..] == s[..|s| - 1][k + 1..] + [s[|s| - 1]];
      k
  }

  /** FirstIndexOf finds x at i when x is there and nowhere before. */
  lemma FirstIndexOfAt<T>(s: seq<T>, x: T, i: int)
    requires 0 <= i < |s| && s[i] == x && x !in s[..i]
    ensures FirstIndexOf(s, x) == i
  {
    var j := FirstIndexOf(s, x);
    assert s[i] in s;
    assert forall k :: 0 <= k < i ==> s[k] == s[..i][k];
    assert forall k :: 0 <= k < j ==> s[k] == s[..j][k];
  }

  /** LastIndexOf finds x at i when x is there and nowhere after. */
  lemma LastIndexOfAt<T>(s: seq<T>, x: T, i: int)
    requires 0 <= i < |s| && s[i] == x && x !in s[i + 1..]
    ensures LastIndexOf(s, x) == i
  {
    var j := LastIndexOf(s, x);
    assert s[i] in s;
    assert forall k :: i < k < |s| ==> s[k] == s[i + 1..][k - i - 1];
    assert forall k :: 0 <= j < k < |s| ==> s[k] == s[j + 1..][k - j - 1];
  }

  /** strings.Split with a non-empty separator. */
  function Split<T(==)>(s: seq<T>, sep: seq<T>): (parts: seq<seq<T>>)
    requires |sep| > 0
    ensures |parts| >= 1
    decreases |s|
  {
    var i := Index(s, sep);
    if i < 0 then [s] else [s[..i]] + Split(s[i + |sep|..], sep)
  }

  /** strings.Join */
  function Join<T>(parts: seq<seq<T>>, sep: seq<T>): seq<T> {
    if |parts| == 0 then []
    else if |parts| == 1 then parts[0]
    else parts[0] + sep + Join(parts[1..], sep)
  }

  /** Joining the pieces of a split with the same separator gives back the input. */
  lemma {:induction false} JoinSplit<T>(s: seq<T>, sep: seq<T>)
    requires |sep| > 0
    ensures Join(Split(s, sep), sep) == s
    decreases |s|
  {
    var i := Index(s, sep);
    if i >= 0 {
      var rest := s[i + |sep|..];
      JoinSplit(rest, sep);
      assert Split(s, sep)[1..] == Split(rest, sep);
      assert s == s[..i] + sep + rest;
    }
  }

  /** An occurrence stays an occurrence when text is added on either side. */
  lemma OccursAtWithin<T>(a: seq<T>, s: seq<T>, b: seq<T>, sub: seq<T>, j: int)
    requires OccursAt(s, sub, j)
    ensures OccursAt(a + s + b, sub, |a| + j)
  {
    assert (a + s + b)[|a| + j..|a| + j + |sub|] == s[j..j + |sub|];
  }

  /** Every piece occurs in the pieces joined, at an offset this lemma finds. */
  lemma {:induction false} JoinOccurs<T>(parts: seq<seq<T>>, sep: seq<T>, i: int) returns (j: int)
    requires 0 <= i < |parts|
    ensures OccursAt(Join(parts, sep), parts[i], j)
    decreases |parts|
  {
    var p := parts[i];
    if |parts| == 1 {
      j := 0;
      assert Join(parts, sep)[..|p|] == p;
    } else if i == 0 {
      j := 0;
      var s := Join(parts, sep);
      assert s == p + (sep + Join(parts[1..], sep));
      assert s[..|p|] == p;
    } else {
      var k := JoinOccurs(parts[1..], sep, i - 1);
      var rest := Join(parts[1..], sep);
      OccursAtWithin(parts[0] + sep, rest, [], p, k);
      assert parts[0] + sep + rest + [] == Join(parts, sep);
      j := |parts[0] + sep| + k;
    }
  }

  /** Every piece occurs in the pieces joined. */
  lemma JoinContainsParts<T>(parts: seq<seq<T>>, sep: seq<T>, i: int)
    requires 0 <= i < |parts|
    ensures Contains(Join(parts, sep), parts[i])
  {
    var j := JoinOccurs(parts, sep, i);
    ContainsAt(Join(parts, sep), parts[i], j);
  }

  /** No piece of a split contains the separator. */
  lemma {:induction false} SplitPiecesFree<T>(s: seq<T>, sep: seq<T>)
    requires |sep| > 0
    ensures forall k :: 0 <= k < |Split(s, sep)| ==> !Contains(Split(s, sep)[k], sep)
    decreases |s|
  {
    var i := Index(s, sep);
    if i < 0 {
      assert Split(s, sep) == [s];
    } else {
      NotContainsBeforeIndex(s, sep, i);
      var rest := Split(s[i + |sep|..], sep);
      SplitPiecesFree(s[i + |sep|..], sep);
      var parts := Split(s, sep);
      assert parts == [s[..i]] + rest;
      forall k | 0 <= k < |parts| ensures !Contains(parts[k], sep) {
        if k > 0 {
          assert parts[k] == rest[k - 1];
        }
      }
    }
  }

  /** strings.ReplaceAll with a non-empty pattern. */
  function ReplaceAll<T(==)>(s: seq<T>, pat: seq<T>, rep: seq<T>): (r: seq<T>)
    requires |pat| > 0
    decreases |s|
  {
    var i := Index(s, pat);
    if i < 0 then s else s[..i] + rep + ReplaceAll(s[i + |pat|..], pat, rep)
  }

  /** Replacing every occurrence is splitting on the pattern and joining with
      the replacement. */
  lemma {:induction false} ReplaceAllIsJoinSplit<T>(s: seq<T>, pat: seq<T>, rep: seq<T>)
    requires |pat| > 0
    ensures ReplaceAll(s, pat, rep) == Join(Split(s, pat), rep)
    decreases |s|
  {
    var i := Index(s, pat);
    if i >= 0 {
      var rest := s[i + |pat|..];
      ReplaceAllIsJoinSplit(rest, pat, rep);
      assert Split(s, pat)[1..] == Split(rest, pat);
    }
  }

  /** A pattern that leads the string and does not occur in the rest is
      replaced once, at the front. */
  lemma ReplaceAllLeading<T>(pat: seq<T>, rest: seq<T>, rep: seq<T>)
    requires |pat| > 0 && !Contains(rest, pat)
    ensures ReplaceAll(pat + rest, pat, rep) == rep + rest
  {
    var s := pat + rest;
    assert s[..|pat|] == pat;
    assert s[|pat|..] == rest;
  }

  /** Replacing every c by a different d leaves no c behind. */
  lemma {:induction false} ReplaceAllRemoves<T>(s: seq<T>, c: T, d: T)
    requires c != d
    ensures c !in ReplaceAll(s, [c], [d])
    decreases |s|
  {
    var i := Index(s, [c]);
    if i < 0 {
      forall k | 0 <= k < |s| ensures s[k] != c {
        assert !OccursAt(s, [c], k);
        assert s[k..k + 1] == [s[k]];
      }
    } else {
      forall k | 0 <= k < i ensures s[k] != c {
        assert !OccursAt(s, [c], k);
        assert s[k..k + 1] == [s[k]];
      }
      ReplaceAllRemoves(s[i + 1..], c, d);
      assert ReplaceAll(s, [c], [d]) == s[..i] + [d] + ReplaceAll(s[i + 1..], [c], [d]);
    }
  }

  /** strings.Replace(s, pat, rep, 1): only the first occurrence is replaced. */
  function ReplaceFirst<T(==)>(s: seq<T>, pat: seq<T>, rep: seq<T>): (r: seq<T>)
    ensures Index(s, pat) < 0 ==> r == s
    ensures Index(s, pat) >= 0 ==>
      r == s[..Index(s, pat)] + rep + s[Index(s, pat) + |pat|..]
  {
    var i := Index(s, pat);
    if i < 0 then s else s[..i] + rep + s[i + |pat|..]
  }

  // ----- ASCII case mapping and white space -----

  function UpperChar(c: char): char {
    if 'a' <= c <= 'z' then ((c as int) - 32) as char else c
  }

  /** strings.ToUpper, narrowed to ASCII letters. */
  function ToUpper(s: string): (r: string)
    ensures |r| == |s|
    ensures forall i :: 0 <= i < |s| ==> r[i] == UpperChar(s[i])
  {
    seq(|s|, i requires 0 <= i < |s| => UpperChar(s[i]))
  }

  /** unicode.IsSpace: the Latin-1 white space (tab, line feed, vertical
      tab, form feed, carriage return, space, next line, no-break space) and
      the rest of Unicode's White_Space property. */
  predicate IsSpace(c: char) {
    ('\t' <= c <= '\r') || c == ' ' || c == '\U{85}' || c == '\U{A0}'
    || c == '\U{1680}' || ('\U{2000}' <= c <= '\U{200A}') || c == '\U{2028}' || c == '\U{2029}'
    || c == '\U{202F}' || c == '\U{205F}' || c == '\U{3000}'
  }

  function TrimLeftSpace(s: string): (r: string)
    ensures |r| <= |s| && r == s[|s| - |r|..]
    ensures |r| > 0 ==> !IsSpace(r[0])
    ensures forall i :: 0 <= i < |s| - |r| ==> IsSpace(s[i])
  {
    if |s| > 0 && IsSpace(s[0]) then TrimLeftSpace(s[1..]) else s
  }

  function TrimRightSpace(s: string): (r: string)
    ensures |r| <= |s| && r == s[..|r|]
    ensures |r| > 0 ==> !IsSpace(r[|r| - 1])
    ensures forall i :: |r| <= i < |s| ==> IsSpace(s[i])
  {
    if |s| > 0 && IsSpace(s[|s| - 1]) then TrimRightSpace(s[..|s| - 1]) else s
  }

  /** Neither end of s is white space. */
  predicate Trimmed(s: string) {
    |s| == 0 || (!IsSpace(s[0]) && !IsSpace(s[|s| - 1]))
  }

  /** r is s from index i on, with only white space cut from either end. */
  predicate SpaceCut(s: string, r: string, i: int) {
    0 <= i <= |s| - |r| && r == s[i..i + |r|]
    && (forall k :: 0 <= k < i ==> IsSpace(s[k]))
    && (forall k :: i + |r| <= k < |s| ==> IsSpace(s[k]))
  }

  /** Cutting white space off the front of s (giving l) and then off the
      back of l (giving r) leaves r in place inside s. */
  lemma TrimSpaceCut(s: string, l: string, r: string)
    requires |l| <= |s| && l == s[|s| - |l|..] && (forall k :: 0 <= k < |s| - |l| ==> IsSpace(s[k]))
    requires |r| <= |l| && r == l[..|r|] && (forall k :: |r| <= k < |l| ==> IsSpace(l[k]))
    ensures SpaceCut(s, r, |s| - |l|)
  {
    var i := |s| - |l|;
    forall k | i + |r| <= k < |s| ensures IsSpace(s[k]) {
      assert s[k] == l[k - i];
    }
  }

  /** strings.TrimSpace: the input without its leading and trailing white space. */
  function TrimSpace(s: string): (r: string)
    ensures Trimmed(r)
    ensures exists i :: SpaceCut(s, r, i)
  {
    var l := TrimLeftSpace(s);
    var r := TrimRightSpace(l);
    TrimSpaceCut(s, l, r);
    r
  }

  // ----- strconv: decimal integers -----

  predicate IsDigit(c: char) {
    '0' <= c <= '9'
  }

  predicate AllDigits(s: string) {
    forall i :: 0 <= i < |s| ==> IsDigit(s[i])
  }

  function DigitChar(d: nat): (c: char)
    requires d < 10
    ensures IsDigit(c)
  {
    (('0' as int) + d) as char
  }

  /** The value of a string of decimal digits, most significant first. */
  function DecimalValue(s: string): nat
    requires AllDigits(s)
  {
    if |s| == 0 then 0
    else DecimalValue(s[..|s| - 1]) * 10 + ((s[|s| - 1] as int) - ('0' as int))
  }

  /** The shortest decimal digits of n. */
  function NatToDecimal(n: nat): (s: string)
    ensures |s| >= 1 && AllDigits(s)
  {
    if n < 10 then [DigitChar(n)] else NatToDecimal(n / 10) + [DigitChar(n % 10)]
  }

  /** Reading back the digits written for n gives n. */
  lemma {:induction false} DecimalRoundTrip(n: nat)
    ensures DecimalValue(NatToDecimal(n)) == n
  {
    if n >= 10 {
      DecimalRoundTrip(n / 10);
      var s := NatToDecimal(n);
      assert s[..|s| - 1] == NatToDecimal(n / 10);
    }
  }

  /** strconv.Itoa */
  function Itoa(n: int): string {
    if n < 0 then "-" + NatToDecimal(-n) else NatToDecimal(n)
  }

  /** strconv.ParseInt(s, 10, 64) (and strconv.Atoi, which is the same on
      64-bit platforms): an optional sign followed by at least one decimal
      digit, whose value fits in an int64. None stands for the syntax and range
      errors. */
  function ParseInt64(s: string): (r: Option<int>)
    ensures r.Some? ==> InInt64(r.value)
    ensures r.Some? ==> |s| > 0
  {
    if |s| == 0 then None
    else
      var negative := s[0] == '-';
      var digits := if s[0] == '-' || s[0] == '+' then s[1..] else s;
      if |digits| == 0 || !AllDigits(digits) then None
      else
        var v: int := if negative then -(DecimalValue(digits) as int) else DecimalValue(digits);
        if InInt64(v) then Some(v) else None
  }

  /** Formatting an int64 with Itoa and parsing it back gives the same value. */
  lemma ParseItoa(n: int)
    requires InInt64(n)
    ensures ParseInt64(Itoa(n)) == Some(n)
  {
    if n < 0 {
      ParseNegative(n);
    } else {
      ParseNonNegative(n);
    }
  }

  lemma ParseNonNegative(n: int)
    requires 0 <= n <= MaxInt64
    ensures ParseInt64(NatToDecimal(n)) == Some(n)
  {
    DecimalRoundTrip(n);
    var s := NatToDecimal(n);
    assert IsDigit(s[0]);
  }

  lemma ParseNegative(n: int)
    requires MinInt64 <= n < 0
    ensures ParseInt64("-" + NatToDecimal(-n)) == Some(n)
  {
    DecimalRoundTrip(-n);
    var s := "-" + NatToDecimal(-n);
    assert s[0] == '-' && s[1..] == NatToDecimal(-n);
  }

  /** Strings with a character outside an optional sign and digits never parse. */
  lemma ParseRejectsNonDigit(s: string, i: int)
    requires 0 < i < |s| && !IsDigit(s[i])
    ensures ParseInt64(s) == None
  {
    var digits := if s[0] == '-' || s[0] == '+' then s[1..] else s;
    if s[0] == '-' || s[0] == '+' {
      assert digits[i - 1] == s[i];
    } else {
      assert digits[i] == s[i];
    }
  }
}

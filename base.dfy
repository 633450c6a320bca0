/** Wrappers shared by every module of the model: Go's nil-able values become
    Option, Go's (value, error) pairs become Result, and Go's int64 arithmetic
    (time.Duration is an int64 count of nanoseconds) is written out with an
    explicit wrap-around. */
module Base {

  /** A nil-able value: a Go pointer or a nil-able slice. */
  datatype Option<T> = None | Some(value: T)
  {
    /** The value, or the given default for nil. */
    function GetOr(default: T): T {
      match this
      case Some(v) => v
      case None => default
    }
  }

  /** The (value, error) pair of a Go function: an error carries its message. */
  datatype Result<T> = Ok(value: T) | Err(error: string)

  const MinInt64: int := -0x8000_0000_0000_0000
  const MaxInt64: int := 0x7FFF_FFFF_FFFF_FFFF
  const TwoTo64: int := 0x1_0000_0000_0000_0000

  predicate InInt64(x: int) {
    MinInt64 <= x <= MaxInt64
  }

  /** Two's-complement wrap-around of Go's int64 arithmetic. */
  function WrapInt64(x: int): (r: int)
    ensures InInt64(r)
    ensures (r - x) % TwoTo64 == 0
    ensures InInt64(x) ==> r == x
  {
    var m := x % TwoTo64;
    if m > MaxInt64 then m - TwoTo64 else m
  }

  /** One second as a time.Duration (nanoseconds). */
  const Second: int := 1_000_000_000

  /** time.Duration(n) * time.Second, with Go's int64 overflow. */
  function Seconds(n: int): int
    requires InInt64(n)
  {
    WrapInt64(n * Second)
  }

  /** From 9223372037 seconds on, the nanosecond count no longer fits in an
      int64 and wraps round to a negative duration. */
  lemma SecondsOverflow(n: int)
    requires 9223372037 <= n <= 18446744073
    ensures InInt64(n) && Seconds(n) == n * Second - TwoTo64 < 0
  {
    var x := n * Second;
    assert MaxInt64 < x < TwoTo64;
    assert x % TwoTo64 == x;
  }

  /** The list behind a nil-able slice pointer: nil reads as empty. */
  function Elems<T>(list: Option<seq<T>>): seq<T> {
    list.GetOr([])
  }

  /** The idiom `if p == nil { p = &[]T{x} } else { *p = append(*p, x) }`:
      a nil list becomes a one-element list, any other list grows at its end. */
  function Append<T>(list: Option<seq<T>>, x: T): (r: Option<seq<T>>)
    ensures r.Some? && r.value == Elems(list) + [x]
  {
    match list
    case None => Some([x])
    case Some(s) => Some(s + [x])
  }

  /** Appending the elements of xs one after the other with Append: nothing
      happens when xs is empty, otherwise the list is no longer nil and
      ends with xs. */
  function AppendAll<T>(list: Option<seq<T>>, xs: seq<T>): (r: Option<seq<T>>)
    ensures xs == [] ==> r == list
    ensures xs != [] ==> r == Some(Elems(list) + xs)
  {
    if xs == [] then list else Some(Elems(list) + xs)
  }

  /** f applied to every element, in order. */
  function Mapped<T, U>(s: seq<T>, f: T -> U): (r: seq<U>)
    ensures |r| == |s|
  {
    seq(|s|, i requires 0 <= i < |s| => f(s[i]))
  }

  /** The loop `for i, x := range a { a[i] = f(x) }`. */
  method MapInPlace<T>(a: array<T>, f: T -> T)
    modifies a
    ensures a[..] == Mapped(old(a[..]), f)
  {
    ghost var s := a[..];
    var i := 0;
    while i < a.Length
      invariant 0 <= i <= a.Length
      invariant forall j :: 0 <= j < i ==> a[j] == f(s[j])
      invariant forall j :: i <= j < a.Length ==> a[j] == s[j]
    {
      a[i] := f(a[i]);
      i := i + 1;
    }
    assert forall j :: 0 <= j < a.Length ==> a[..][j] == Mapped(s, f)[j];
  }

  /** A non-empty right operand split at its last element. */
  lemma ConcatSplitLast<T>(a: seq<T>, b: seq<T>)
    requires |b| > 0
    ensures b == b[..|b| - 1] + [b[|b| - 1]]
    ensures a + b == (a + b[..|b| - 1]) + [b[|b| - 1]]
  {
  }

  lemma ConcatAssoc<T>(x: seq<T>, y: seq<T>, z: seq<T>)
    ensures x + y + z == x + (y + z)
  {
  }

  /** One more Append extends the appended elements by one. */
  lemma AppendAllStep<T>(list: Option<seq<T>>, xs: seq<T>, x: T)
    ensures Append(AppendAll(list, xs), x) == AppendAll(list, xs + [x])
  {
    if xs == [] {
      assert xs + [x] == [x];
    } else {
      assert Elems(list) + xs + [x] == Elems(list) + (xs + [x]);
    }
  }

  /** Appending two runs one after the other is appending them joined. */
  lemma AppendAllTwice<T>(list: Option<seq<T>>, xs: seq<T>, ys: seq<T>)
    ensures AppendAll(AppendAll(list, xs), ys) == AppendAll(list, xs + ys)
  {
    if xs != [] && ys != [] {
      assert Elems(list) + xs + ys == Elems(list) + (xs + ys);
    } else if xs == [] {
      assert xs + ys == ys;
    } else {
      assert xs + ys == xs;
    }
  }
}

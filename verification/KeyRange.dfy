/** Range scans over fixed-width big-endian keys (crates/typed-store/src/rocks/mod.rs). */
module KeyRange {
  import opened Ints

  newtype byte = x: int | 0 <= x < 256

  type Key = seq<byte>

  /** The number a key stands for, most significant byte first. */
  function Value(k: Key): nat {
    if k == [] then 0 else 256 * Value(k[..|k| - 1]) + k[|k| - 1] as nat
  }

  predicate IsMax(k: Key) {
    forall i :: 0 <= i < |k| ==> k[i] == 255
  }

  /** Bytewise order, the comparator of the store. */
  predicate Before(a: Key, b: Key) {
    b != [] && (a == [] || a[0] < b[0] || (a[0] == b[0] && Before(a[1..], b[1..])))
  }

  // ---- Keys of one width are ordered as numbers ----

  function Pow256(n: nat): (p: nat)
    ensures p > 0
  {
    if n == 0 then 1 else 256 * Pow256(n - 1)
  }

  lemma {:induction false} ValueFromFront(k: Key)
    requires k != []
    ensures Value(k) == k[0] as nat * Pow256(|k| - 1) + Value(k[1..])
  {
    var front := k[..|k| - 1];
    if |k| == 1 {
      assert front == [] && k[1..] == [];
    } else {
      ValueFromFront(front);
      assert k[1..][..|k[1..]| - 1] == front[1..];
      assert k[1..][|k[1..]| - 1] == k[|k| - 1];
    }
  }

  lemma {:induction false} ValueBound(k: Key)
    ensures Value(k) < Pow256(|k|)
  {
    if k != [] {
      ValueBound(k[..|k| - 1]);
    }
  }

  lemma HigherFirstByte(x: nat, y: nat, p: nat, a: nat, b: nat)
    requires x < y && a < p
    ensures x * p + a < y * p + b
  {
    assert (x + 1) * p <= y * p;
  }

  lemma {:induction false} BeforeIffLess(a: Key, b: Key)
    requires |a| == |b|
    ensures Before(a, b) <==> Value(a) < Value(b)
    ensures a == b <==> Value(a) == Value(b)
  {
    if a != [] {
      ValueFromFront(a);
      ValueFromFront(b);
      ValueBound(a[1..]);
      ValueBound(b[1..]);
      if a[0] < b[0] {
        HigherFirstByte(a[0] as nat, b[0] as nat, Pow256(|a| - 1), Value(a[1..]), Value(b[1..]));
      } else if b[0] < a[0] {
        HigherFirstByte(b[0] as nat, a[0] as nat, Pow256(|a| - 1), Value(b[1..]), Value(a[1..]));
      } else {
        BeforeIffLess(a[1..], b[1..]);
        assert a == [a[0]] + a[1..] && b == [b[0]] + b[1..];
      }
    }
  }

  // ---- The byte loop ----

  /** The key with one added, trailing 0xFF bytes turning into zeros. */
  function Carry(k: Key): (r: Key)
    ensures |r| == |k|
  {
    if k == [] then []
    else
      var front, last := k[..|k| - 1], k[|k| - 1];
      if last == 255 then Carry(front) + [0] else front + [last + 1]
  }

  function Increment(k: Key): Key {
    if IsMax(k) then k else Carry(k)
  }

  lemma {:induction false} CarryAt(k: Key, i: nat)
    requires i < |k| && k[i] != 255 && forall j :: i < j < |k| ==> k[j] == 255
    ensures forall j :: 0 <= j < |k| ==> Carry(k)[j] == if j < i then k[j] else if j == i then k[i] + 1 else 0
  {
    if i < |k| - 1 {
      CarryAt(k[..|k| - 1], i);
    }
  }

  method BigEndianSaturatingAddOne(v: array<byte>)
    modifies v
    ensures v[..] == Increment(old(v[..]))
  {
    ghost var was := v[..];
    var max := AllMax(v);
    if max {
      return;
    }
    var i := v.Length;
    while i > 0
      invariant 0 <= i <= v.Length
      invariant forall j :: 0 <= j < i ==> v[j] == was[j]
      invariant forall j :: i <= j < v.Length ==> was[j] == 255 && v[j] == 0
    {
      i := i - 1;
      if v[i] == 255 {
        v[i] := 0;
      } else {
        v[i] := v[i] + 1;
        CarryAt(was, i);
        assert v[..] == Carry(was);
        return;
      }
    }
  }

  method AllMax(v: array<byte>) returns (max: bool)
    ensures max == IsMax(v[..])
  {
    for i := 0 to v.Length
      invariant forall j :: 0 <= j < i ==> v[j] == 255
    {
      if v[i] != 255 {
        assert v[..][i] != 255;
        return false;
      }
    }
    return true;
  }

  lemma {:induction false} CarryAddsOne(k: Key)
    requires !IsMax(k)
    ensures Value(Carry(k)) == Value(k) + 1
  {
    var front, last := k[..|k| - 1], k[|k| - 1];
    if last == 255 {
      CarryAddsOne(front);
      assert Carry(k)[..|k| - 1] == Carry(front);
    } else {
      assert Carry(k)[..|k| - 1] == front;
    }
  }

  lemma {:induction false} MaxIsGreatest(k: Key)
    ensures IsMax(k) <==> Value(k) + 1 == Pow256(|k|)
  {
    if k != [] {
      MaxIsGreatest(k[..|k| - 1]);
      ValueBound(k[..|k| - 1]);
    }
  }

  /** Same width, one more unless all bytes are 0xFF, and no key of that width lies between. */
  lemma {:induction false} IncrementIsNext(k: Key, other: Key)
    requires |other| == |k|
    ensures |Increment(k)| == |k|
    ensures Value(Increment(k)) == if IsMax(k) then Value(k) else Value(k) + 1
    ensures !(Before(k, other) && Before(other, Increment(k)))
    ensures IsMax(k) ==> !Before(k, other)
  {
    if !IsMax(k) {
      CarryAddsOne(k);
    }
    MaxIsGreatest(k);
    ValueBound(other);
    BeforeIffLess(k, other);
    BeforeIffLess(other, Increment(k));
  }

  // ---- Read options of a range ----

  datatype Bound = Included(key: Key) | Excluded(key: Key) | Unbounded

  datatype Range = Range(start: Bound, end: Bound)

  /** The iterator yields keys from `lower` on, and stops before `upper`. */
  datatype ReadOptions = ReadOptions(lower: Option<Key>, upper: Option<Key>)

  function OptionsOf(range: Range): ReadOptions {
    ReadOptions(
      match range.start
      case Included(k) => Some(k)
      case Excluded(k) => Some(Increment(k))
      case Unbounded => None,
      match range.end
      case Included(k) => if IsMax(k) then None else Some(Increment(k))
      case Excluded(k) => Some(k)
      case Unbounded => None)
  }

  method CopyOf(k: Key) returns (v: array<byte>)
    ensures fresh(v) && v[..] == k
  {
    v := new byte[|k|](i requires 0 <= i < |k| => k[i]);
  }

  method CreateReadOptionsWithRange(range: Range) returns (options: ReadOptions)
    ensures options == OptionsOf(range)
  {
    options := ReadOptions(None, None);
    match range.start {
      case Included(k) => options := options.(lower := Some(k));
      case Excluded(k) =>
        var buffer := CopyOf(k);
        BigEndianSaturatingAddOne(buffer);
        options := options.(lower := Some(buffer[..]));
      case Unbounded =>
    }
    match range.end {
      case Included(k) =>
        var buffer := CopyOf(k);
        var max := AllMax(buffer);
        if !max {
          BigEndianSaturatingAddOne(buffer);
          options := options.(upper := Some(buffer[..]));
        }
      case Excluded(k) => options := options.(upper := Some(k));
      case Unbounded =>
    }
  }

  predicate Selected(options: ReadOptions, k: Key) {
    && (options.lower.Some? ==> !Before(k, options.lower.value))
    && (options.upper.Some? ==> Before(k, options.upper.value))
  }

  /** Membership in the range, by the numbers the keys stand for. */
  predicate Wanted(range: Range, k: Key) {
    && (match range.start
        case Included(s) => Value(s) <= Value(k)
        case Excluded(s) => Value(s) < Value(k)
        case Unbounded => true)
    && (match range.end
        case Included(e) => Value(k) <= Value(e)
        case Excluded(e) => Value(k) < Value(e)
        case Unbounded => true)
  }

  predicate Width(range: Range, n: nat) {
    (!range.start.Unbounded? ==> |range.start.key| == n) && (!range.end.Unbounded? ==> |range.end.key| == n)
  }

  /** The lower bound excludes the greatest key, and the upper bound admits it. */
  predicate SkipsGreatest(range: Range) {
    range.start.Excluded? && IsMax(range.start.key)
    && (range.end.Unbounded? || (range.end.Included? && IsMax(range.end.key)))
  }

  lemma EndIsExact(range: Range, n: nat, k: Key)
    requires Width(range, n) && |k| == n
    ensures Selected(OptionsOf(range.(start := Unbounded)), k) <==> Wanted(range.(start := Unbounded), k)
  {
    if !range.end.Unbounded? {
      var e := range.end.key;
      IncrementIsNext(e, k);
      BeforeIffLess(k, e);
      BeforeIffLess(e, k);
      BeforeIffLess(k, Increment(e));
    }
  }

  lemma StartIsExactBut(range: Range, n: nat, k: Key)
    requires Width(range, n) && |k| == n
    ensures Selected(OptionsOf(range.(end := Unbounded)), k) <==>
            Wanted(range.(end := Unbounded), k) || (range.start.Excluded? && IsMax(range.start.key) && k == range.start.key)
  {
    if !range.start.Unbounded? {
      var s := range.start.key;
      IncrementIsNext(s, k);
      BeforeIffLess(k, s);
      BeforeIffLess(s, k);
      BeforeIffLess(k, Increment(s));
    }
  }

  /**
   For keys of one width the options select exactly the keys of the range, if and only if the range
   does not exclude the greatest key at its lower end while admitting it at its upper end.
   */
  lemma RangeIsExactIff(range: Range, n: nat)
    requires Width(range, n)
    ensures (forall k: Key :: |k| == n ==> (Selected(OptionsOf(range), k) <==> Wanted(range, k))) <==> !SkipsGreatest(range)
  {
    forall k: Key | |k| == n
      ensures Selected(OptionsOf(range), k) <==>
              Wanted(range, k) || (SkipsGreatest(range) && k == range.start.key)
    {
      SelectedIff(range, n, k);
    }
    if SkipsGreatest(range) {
      var k := range.start.key;
      assert Selected(OptionsOf(range), k) && !Wanted(range, k);
    }
  }

  lemma SelectedIff(range: Range, n: nat, k: Key)
    requires Width(range, n) && |k| == n
    ensures Selected(OptionsOf(range), k) <==>
            Wanted(range, k) || (SkipsGreatest(range) && k == range.start.key)
  {
    EndIsExact(range, n, k);
    StartIsExactBut(range, n, k);
    if range.start.Excluded? && IsMax(range.start.key) && k == range.start.key && !range.end.Unbounded? {
      IncrementIsNext(k, range.end.key);
      BeforeIffLess(k, range.end.key);
      BeforeIffLess(range.end.key, k);
      MaxIsGreatest(k);
      MaxIsGreatest(range.end.key);
      ValueBound(range.end.key);
    }
  }
}

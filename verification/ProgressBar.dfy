/** The bitmap progress bar: how bits are spread over the columns and how a column is drawn. */
module ProgressBar {
  import opened Collections

  // ----- rounding

  /** The value of `num / den` rounded to the nearest integer, halves up. */
  function RoundHalfUp(num: int, den: int): (r: int)
    requires den > 0
    ensures 2 * r * den - den <= 2 * num < 2 * r * den + den
  {
    var q := 2 * den;
    DivisionBounds(2 * num + den, q);
    (2 * num + den) / q
  }

  lemma DivisionBounds(a: int, d: int)
    requires d > 0
    ensures (a / d) * d <= a < (a / d) * d + d
  {
  }

  /** Only one integer is nearest with halves up. */
  lemma NearestIsUnique(num: int, den: int, r: int)
    requires den > 0 && 2 * r * den - den <= 2 * num < 2 * r * den + den
    ensures RoundHalfUp(num, den) == r
  {
    var t := RoundHalfUp(num, den);
    assert 2 * den * (t - r) < 2 * den && 2 * den * (r - t) < 2 * den;
    ScaledBelow(t - r, 2 * den);
    ScaledBelow(r - t, 2 * den);
  }

  lemma ScaledBelow(x: int, d: int)
    requires d > 0 && d * x < d
    ensures x <= 0
  {
  }

  // ----- more columns than bits: every column shows one bit

  /** The bar position up to which bit `bit` extends. */
  function Reach(bit: int, lineSize: int, maxSize: int): int
    requires maxSize > 0
  {
    RoundHalfUp(bit * lineSize, maxSize)
  }

  /** `bit` is the least bit reaching column `column`. */
  ghost predicate Shows(bit: int, column: int, lineSize: int, maxSize: int)
    requires maxSize > 0
  {
    && 1 <= bit <= maxSize
    && Reach(bit, lineSize, maxSize) >= column
    && (bit > 1 ==> Reach(bit - 1, lineSize, maxSize) < column)
  }

  lemma ReachGrows(bit: int, lineSize: int, maxSize: int)
    requires 0 < maxSize <= lineSize
    ensures Reach(bit, lineSize, maxSize) < Reach(bit + 1, lineSize, maxSize)
  {
    var a, b := Reach(bit, lineSize, maxSize), Reach(bit + 1, lineSize, maxSize);
    assert (bit + 1) * lineSize == bit * lineSize + lineSize;
    assert 2 * a * maxSize + 2 * lineSize < 2 * b * maxSize + 2 * maxSize;
  }

  lemma ReachEnds(lineSize: int, maxSize: int)
    requires 0 < maxSize <= lineSize
    ensures Reach(maxSize, lineSize, maxSize) == lineSize
    ensures Reach(1, lineSize, maxSize) >= 1
  {
    assert 2 * lineSize * maxSize == 2 * (maxSize * lineSize);
    NearestIsUnique(maxSize * lineSize, maxSize, lineSize);
  }

  lemma {:induction false} ReachIncreases(a: int, b: int, lineSize: int, maxSize: int)
    requires 0 < maxSize <= lineSize && a <= b
    ensures Reach(a, lineSize, maxSize) + (b - a) <= Reach(b, lineSize, maxSize)
    decreases b - a
  {
    if a < b {
      ReachIncreases(a, b - 1, lineSize, maxSize);
      ReachGrows(b - 1, lineSize, maxSize);
    }
  }

  method NarrowBuckets(lineSize: int, maxSize: int) returns (buckets: seq<(int, int)>)
    requires 0 < maxSize <= lineSize
    ensures |buckets| == lineSize
    ensures forall i :: 0 <= i < lineSize ==>
              buckets[i].1 == buckets[i].0 + 1 && Shows(buckets[i].0, i + 1, lineSize, maxSize)
  {
    buckets := [];
    var bitCounter := 1;
    ReachEnds(lineSize, maxSize);
    for s := 1 to lineSize + 1
      invariant |buckets| == s - 1
      invariant 1 <= bitCounter
      invariant s <= lineSize ==> Shows(bitCounter, s, lineSize, maxSize)
      invariant forall i :: 0 <= i < |buckets| ==>
                  buckets[i].1 == buckets[i].0 + 1 && Shows(buckets[i].0, i + 1, lineSize, maxSize)
    {
      buckets := buckets + [(bitCounter, bitCounter + 1)];
      if s >= Reach(bitCounter, lineSize, maxSize) {
        ReachGrows(bitCounter, lineSize, maxSize);
        bitCounter := bitCounter + 1;
      }
    }
  }

  /** A column shows one bit only, in order; each of the bits is shown by some column, and the last
      column shows the last bit. */
  lemma EveryBitIsShown(lineSize: int, maxSize: int)
    requires 0 < maxSize <= lineSize
    ensures forall a, b, s :: Shows(a, s, lineSize, maxSize) && Shows(b, s, lineSize, maxSize) ==> a == b
    ensures forall a, b, s, t :: s <= t && Shows(a, s, lineSize, maxSize) && Shows(b, t, lineSize, maxSize) ==> a <= b
    ensures forall bit :: 1 <= bit <= maxSize ==>
              && 1 <= Reach(bit, lineSize, maxSize) <= lineSize
              && Shows(bit, Reach(bit, lineSize, maxSize), lineSize, maxSize)
    ensures Shows(maxSize, lineSize, lineSize, maxSize)
  {
    ReachEnds(lineSize, maxSize);
    forall a, b, s, t | s <= t && Shows(a, s, lineSize, maxSize) && Shows(b, t, lineSize, maxSize)
      ensures a <= b
    {
      if a > b {
        ReachIncreases(b, a - 1, lineSize, maxSize);
      }
    }
    forall bit | 1 <= bit <= maxSize
      ensures 1 <= Reach(bit, lineSize, maxSize) <= lineSize
      ensures Shows(bit, Reach(bit, lineSize, maxSize), lineSize, maxSize)
    {
      ReachIncreases(1, bit, lineSize, maxSize);
      ReachIncreases(bit, maxSize, lineSize, maxSize);
      ReachGrows(bit - 1, lineSize, maxSize);
    }
  }

  // ----- more bits than columns: every column shows a range of bits

  /** Where column `s` ends; column 1 starts at bit 1. */
  function Edge(s: int, lineSize: int, maxSize: int): int
    requires lineSize > 0
  {
    if s == 0 then 1 else RoundHalfUp(s * maxSize, lineSize)
  }

  method WideBuckets(lineSize: int, maxSize: int) returns (buckets: seq<(int, int)>)
    requires 0 < lineSize < maxSize
    ensures |buckets| == lineSize
    ensures forall i :: 0 <= i < lineSize ==>
              buckets[i] == (Edge(i, lineSize, maxSize), Edge(i + 1, lineSize, maxSize))
  {
    buckets := [];
    var startBit := 1;
    for s := 1 to lineSize + 1
      invariant |buckets| == s - 1
      invariant startBit == Edge(s - 1, lineSize, maxSize)
      invariant forall i :: 0 <= i < |buckets| ==>
                  buckets[i] == (Edge(i, lineSize, maxSize), Edge(i + 1, lineSize, maxSize))
    {
      var endBit := RoundHalfUp(s * maxSize, lineSize);
      buckets := buckets + [(startBit, endBit)];
      startBit := endBit;
    }
  }

  /** Every column but the first shows the floor or the ceiling of `maxSize / lineSize` bits. */
  lemma WideColumnSize(s: int, lineSize: int, maxSize: int)
    requires 0 < lineSize < maxSize && 2 <= s <= lineSize
    ensures var d := Edge(s, lineSize, maxSize) - Edge(s - 1, lineSize, maxSize);
            d == maxSize / lineSize || d == (maxSize + lineSize - 1) / lineSize
    ensures Edge(s - 1, lineSize, maxSize) < Edge(s, lineSize, maxSize)
  {
    var a, b := Edge(s - 1, lineSize, maxSize), Edge(s, lineSize, maxSize);
    var d := b - a;
    assert s * maxSize == (s - 1) * maxSize + maxSize;
    assert 2 * b * lineSize - 2 * a * lineSize == 2 * d * lineSize;
    assert 2 * d * lineSize - 2 * lineSize < 2 * maxSize < 2 * d * lineSize + 2 * lineSize;
    Sandwich(d, lineSize, maxSize);
  }

  lemma Sandwich(d: int, l: int, m: int)
    requires 0 < l < m && d * l - l < m < d * l + l
    ensures d == m / l || d == (m + l - 1) / l
    ensures d >= 1
  {
    if d * l <= m {
      QuotientIs(m, l, d);
    } else {
      QuotientIs(m + l - 1, l, d);
    }
  }

  lemma QuotientIs(a: int, d: int, q: int)
    requires d > 0 && q * d <= a < q * d + d
    ensures a / d == q
  {
    var p := a / d;
    DivisionBounds(a, d);
    assert d * (p - q) < d && d * (q - p) < d;
    ScaledBelow(p - q, d);
    ScaledBelow(q - p, d);
  }

  lemma WideEnds(lineSize: int, maxSize: int)
    requires 0 < lineSize < maxSize
    ensures Edge(lineSize, lineSize, maxSize) == maxSize
    ensures Edge(1, lineSize, maxSize) >= 1
  {
    assert 2 * maxSize * lineSize == 2 * (lineSize * maxSize);
    NearestIsUnique(lineSize * maxSize, lineSize, maxSize);
  }

  /** The first column is empty exactly when there are fewer than three bits to two columns. */
  lemma FirstColumnIsEmptyIff(lineSize: int, maxSize: int)
    requires 0 < lineSize < maxSize
    ensures Edge(1, lineSize, maxSize) == Edge(0, lineSize, maxSize) <==> 2 * maxSize < 3 * lineSize
  {
    var r := Edge(1, lineSize, maxSize);
    WideEnds(lineSize, maxSize);
    if r >= 2 {
      assert 2 * r * lineSize >= 2 * 2 * lineSize;
    }
  }

  /** Columns follow one another without gap or overlap: a bit lies in exactly one column, except the
      last bit, which lies in none. */
  ghost predicate InColumn(bit: int, s: int, lineSize: int, maxSize: int)
    requires lineSize > 0
  {
    1 <= s <= lineSize && Edge(s - 1, lineSize, maxSize) <= bit < Edge(s, lineSize, maxSize)
  }

  lemma {:induction false} EdgesOrdered(s: int, t: int, lineSize: int, maxSize: int)
    requires 0 < lineSize < maxSize && 0 <= s <= t <= lineSize
    ensures Edge(s, lineSize, maxSize) <= Edge(t, lineSize, maxSize)
    decreases t - s
  {
    if s < t {
      EdgesOrdered(s, t - 1, lineSize, maxSize);
      if t == 1 {
        WideEnds(lineSize, maxSize);
      } else {
        WideColumnSize(t, lineSize, maxSize);
      }
    }
  }

  lemma {:induction false} FindColumn(bit: int, t: int, lineSize: int, maxSize: int) returns (s: int)
    requires 0 < lineSize < maxSize && 0 <= t <= lineSize && 1 <= bit < Edge(t, lineSize, maxSize)
    ensures InColumn(bit, s, lineSize, maxSize)
    decreases t
  {
    if Edge(t - 1, lineSize, maxSize) <= bit {
      s := t;
    } else {
      s := FindColumn(bit, t - 1, lineSize, maxSize);
    }
  }

  lemma WideColumnsCover(lineSize: int, maxSize: int, bit: int)
    requires 0 < lineSize < maxSize
    ensures (exists s :: InColumn(bit, s, lineSize, maxSize)) <==> 1 <= bit < maxSize
    ensures forall s, t :: InColumn(bit, s, lineSize, maxSize) && InColumn(bit, t, lineSize, maxSize) ==> s == t
  {
    WideEnds(lineSize, maxSize);
    if 1 <= bit < maxSize {
      var s := FindColumn(bit, lineSize, lineSize, maxSize);
    }
    forall s | InColumn(bit, s, lineSize, maxSize)
      ensures 1 <= bit < maxSize
    {
      EdgesOrdered(0, s - 1, lineSize, maxSize);
      EdgesOrdered(s, lineSize, lineSize, maxSize);
    }
    forall s, t | InColumn(bit, s, lineSize, maxSize) && InColumn(bit, t, lineSize, maxSize)
      ensures s == t
    {
      if s < t {
        EdgesOrdered(s, t - 1, lineSize, maxSize);
      } else if t < s {
        EdgesOrdered(t, s - 1, lineSize, maxSize);
      }
    }
  }

  /** Both kinds of columns end at the nearest whole number, halves up. */
  lemma ColumnsEndAtNearest(lineSize: int, maxSize: int, x: int)
    requires lineSize > 0 && maxSize > 0
    ensures var r := Reach(x, lineSize, maxSize);
            2 * r * maxSize - maxSize <= 2 * (x * lineSize) < 2 * r * maxSize + maxSize
    ensures var r := Edge(x, lineSize, maxSize);
            if x == 0 then r == 1 else 2 * r * lineSize - lineSize <= 2 * (x * maxSize) < 2 * r * lineSize + lineSize
  {
  }

  // ----- drawing a column

  /** How many of the bits from `lo` up to but not including `hi` are set. */
  function Tally(bits: map<int, bool>, lo: int, hi: int): (n: nat)
    ensures lo <= hi ==> n <= hi - lo
    decreases hi - lo
  {
    if lo >= hi then 0
    else Tally(bits, lo, hi - 1) + if hi - 1 in bits && bits[hi - 1] then 1 else 0
  }

  datatype Style = Linear | Scatter

  /** Level 0 is the blank; level 8 is the full cell. */
  function Glyph(style: Style, level: int): char {
    if style == Linear then
      match level
      case 1 => '⡀' case 2 => '⡄' case 3 => '⡆' case 4 => '⡇'
      case 5 => '⣇' case 6 => '⣧' case 7 => '⣷' case 8 => '⣿'
      case _ => '⠈'
    else
      match level
      case 1 => '⡀' case 2 => '⣀' case 3 => '⣄' case 4 => '⣤'
      case 5 => '⣦' case 6 => '⣶' case 7 => '⣷' case 8 => '⣿'
      case _ => '⠈'
  }

  /** A drawn cell can be read back. */
  lemma GlyphsAreDistinct(style: Style, a: int, b: int)
    requires 0 <= a <= 8 && 0 <= b <= 8 && Glyph(style, a) == Glyph(style, b)
    ensures a == b
  {
  }

  // ----- the cells are braille patterns: a column of four dots on the left and one on the right

  /** The dots of a cell are numbered 1, 2, 3, 7 down the left and 4, 5, 6, 8 down the right; each has a
      bit in the code of the character. */
  function DotWeight(dot: int): int {
    match dot
    case 1 => 1 case 2 => 2 case 3 => 4 case 4 => 8
    case 5 => 16 case 6 => 32 case 7 => 64 case _ => 128
  }

  predicate HasDot(c: char, dot: int) {
    ((c as int - 0x2800) / DotWeight(dot)) % 2 == 1
  }

  /** A dot's height in the cell, counted from the bottom. */
  function Height(dot: int): int {
    match dot
    case 1 => 4 case 4 => 4 case 2 => 3 case 5 => 3
    case 3 => 2 case 6 => 2 case _ => 1
  }

  predicate OnTheRight(dot: int) {
    dot == 4 || dot == 5 || dot == 6 || dot == 8
  }

  /** The level at which a dot appears: the linear style fills the left column from the bottom and then the
      right one, the scatter style fills row by row from the bottom. */
  function AppearsAt(style: Style, dot: int): int {
    if style == Linear then Height(dot) + if OnTheRight(dot) then 4 else 0
    else 2 * Height(dot) - if OnTheRight(dot) then 0 else 1
  }

  /** A cell shows exactly the dots its level calls for; an empty one shows the top right dot alone. */
  lemma GlyphFills(style: Style, level: int, dot: int)
    requires 0 <= level <= 8 && 1 <= dot <= 8
    ensures HasDot(Glyph(style, level), dot) <==> if level == 0 then dot == 4 else AppearsAt(style, dot) <= level
    ensures 0x2800 <= Glyph(style, level) as int <= 0x28FF
  {
  }

  function Level(bits: map<int, bool>, bucket: (int, int)): int
    requires bucket.0 < bucket.1
  {
    8 * Tally(bits, bucket.0, bucket.1) / (bucket.1 - bucket.0)
  }

  /** The highest of the eight thresholds that `tally / count` meets, found by trying all of them. */
  method HighestThreshold(tally: nat, count: nat) returns (level: nat)
    requires count > 0 && tally <= count
    ensures level == 8 * tally / count
    ensures level <= 8
  {
    level := 0;
    for constant := 1 to 9
      invariant level < constant
      invariant level * count <= 8 * tally
      invariant level + 1 < constant ==> 8 * tally < (level + 1) * count
    {
      if 8 * tally >= constant * count {
        level := constant;
      }
    }
    if level == 8 {
      assert 8 * tally < (level + 1) * count;
    }
    QuotientIs(8 * tally, count, level);
  }

  ghost predicate IsSet(bits: map<int, bool>, b: int) {
    b in bits && bits[b]
  }

  method Maximum(values: seq<int>) returns (top: int)
    requires values != []
    ensures top in values && forall v :: v in values ==> v <= top
  {
    top := values[0];
    for i := 1 to |values|
      invariant top in values && forall k :: 0 <= k < i ==> values[k] <= top
    {
      if values[i] > top {
        top := values[i];
      }
    }
  }

  function AllFalse(n: int): (r: map<int, bool>)
    ensures forall b :: b in r <==> 1 <= b <= n
    ensures forall b :: b in r ==> !r[b]
  {
    if n <= 0 then map[] else AllFalse(n - 1)[n := false]
  }

  datatype BarError = ValueError | ZeroDivision

  class BitmapProgressBar {
    const lineSize: int
    const maxSize: int
    const style: Style
    const front: string
    const rear: string
    const buckets: seq<(int, int)>
    var bits: map<int, bool>

    ghost predicate Valid()
      reads this
    {
      && 0 < lineSize && 0 < maxSize && |buckets| == lineSize
      && (forall b :: 1 <= b <= maxSize ==> b in bits)
      && if maxSize <= lineSize then
           forall i :: 0 <= i < lineSize ==>
             buckets[i].1 == buckets[i].0 + 1 && Shows(buckets[i].0, i + 1, lineSize, maxSize)
         else
           forall i :: 0 <= i < lineSize ==>
             buckets[i] == (Edge(i, lineSize, maxSize), Edge(i + 1, lineSize, maxSize))
    }

    constructor (lineSize: int, maxSize: int, front: string, rear: string, style: Style)
      requires 0 < lineSize && 0 < maxSize
      ensures Valid()
      ensures this.lineSize == lineSize && this.maxSize == maxSize && this.style == style
      ensures this.front == front && this.rear == rear
      ensures forall b :: b in bits <==> 1 <= b <= maxSize
      ensures forall b :: !IsSet(bits, b)
    {
      this.lineSize, this.maxSize, this.style := lineSize, maxSize, style;
      this.front, this.rear := front, rear;
      bits := AllFalse(maxSize);
      var ranges: seq<(int, int)>;
      if maxSize <= lineSize {
        ranges := NarrowBuckets(lineSize, maxSize);
      } else {
        ranges := WideBuckets(lineSize, maxSize);
      }
      buckets := ranges;
    }

    /** Mark values as reached: the given ones, or everything up to their maximum.  Only the linear
        style fails, on an empty collection. */
    method Update(values: seq<int>) returns (ok: bool)
      requires Valid()
      modifies this
      ensures Valid()
      ensures ok <==> style == Scatter || values != []
      ensures !ok ==> bits == old(bits)
      ensures style == Scatter ==> forall b :: IsSet(bits, b) <==> old(IsSet(bits, b)) || b in values
      ensures style == Linear && ok ==>
                forall b :: IsSet(bits, b) <==> old(IsSet(bits, b)) || (1 <= b && exists v :: v in values && b <= v)
    {
      ok := true;
      if style == Scatter {
        ScatterMarks(values);
      } else if values == [] {
        ok := false;
      } else {
        var top := Maximum(values);
        LinearMarks(top);
      }
    }

    method ScatterMarks(values: seq<int>)
      modifies this
      ensures forall b :: b in bits <==> b in old(bits) || b in values
      ensures forall b :: IsSet(bits, b) <==> old(IsSet(bits, b)) || b in values
    {
      for i := 0 to |values|
        invariant forall b :: b in bits <==> b in old(bits) || b in values[..i]
        invariant forall b :: IsSet(bits, b) <==> old(IsSet(bits, b)) || b in values[..i]
      {
        bits := bits[values[i] := true];
        assert values[..i + 1] == values[..i] + [values[i]];
      }
      assert values[..|values|] == values;
    }

    method LinearMarks(top: int)
      modifies this
      ensures forall b :: b in bits <==> b in old(bits) || 1 <= b <= top
      ensures forall b :: IsSet(bits, b) <==> old(IsSet(bits, b)) || 1 <= b <= top
    {
      var v := 1;
      while v < top + 1
        invariant v >= 1 && (v <= top + 1 || v == 1)
        invariant forall b :: b in bits <==> b in old(bits) || 1 <= b < v
        invariant forall b :: IsSet(bits, b) <==> old(IsSet(bits, b)) || 1 <= b < v
      {
        ghost var before := bits;
        bits := bits[v := true];
        assert forall b :: IsSet(bits, b) <==> IsSet(before, b) || b == v;
        v := v + 1;
      }
    }

    /** Draw the bar: one glyph per column by its level, or a division by zero at the first empty column. */
    method Render() returns (r: Result<string, BarError>)
      requires Valid()
      ensures r == Err(ZeroDivision) <==> lineSize < maxSize && 2 * maxSize < 3 * lineSize
      ensures r.Err? ==> r.error == ZeroDivision
      ensures r.Ok? ==> forall i :: 0 <= i < lineSize ==> buckets[i].0 < buckets[i].1
      ensures r.Ok? ==> r.value == front + seq(lineSize, i requires 0 <= i < lineSize && buckets[i].0 < buckets[i].1
                                                          reads this => Glyph(style, Level(bits, buckets[i]))) + rear
    {
      var cells: string := "";
      for i := 0 to lineSize
        invariant |cells| == i
        invariant forall k :: 0 <= k < i ==>
                    buckets[k].0 < buckets[k].1 && cells[k] == Glyph(style, Level(bits, buckets[k]))
      {
        var (start, end) := buckets[i];
        ColumnIsSound(i);
        var tally := 0;
        for b := start to end
          invariant tally == Tally(bits, start, b)
        {
          if bits[b] {
            tally := tally + 1;
          }
        }
        if end - start == 0 {
          return Err(ZeroDivision);
        }
        var level := HighestThreshold(tally, end - start);
        cells := cells + [Glyph(style, level)];
      }
      if lineSize < maxSize {
        FirstColumnIsEmptyIff(lineSize, maxSize);
        assert buckets[0].0 < buckets[0].1;
      }
      return Ok(front + cells + rear);
    }

    /** A column looks up only bits of the map, and only the first can be empty. */
    lemma ColumnIsSound(i: int)
      requires Valid() && 0 <= i < lineSize
      ensures 1 <= buckets[i].0 <= buckets[i].1 <= maxSize + 1
      ensures buckets[i].0 == buckets[i].1 <==> i == 0 && lineSize < maxSize && 2 * maxSize < 3 * lineSize
    {
      if lineSize < maxSize {
        WideEnds(lineSize, maxSize);
        EdgesOrdered(0, i, lineSize, maxSize);
        EdgesOrdered(i + 1, lineSize, lineSize, maxSize);
        FirstColumnIsEmptyIff(lineSize, maxSize);
        if i > 0 {
          WideColumnSize(i + 1, lineSize, maxSize);
        }
      }
    }
  }

  /** Making a bar fails exactly on a size that is not positive. */
  method MakeBar(lineSize: int, maxSize: int, front: string, rear: string, style: Style)
    returns (r: Result<BitmapProgressBar, BarError>)
    ensures r == Err(ValueError) <==> lineSize <= 0 || maxSize <= 0
    ensures r.Ok? ==>
              && fresh(r.value) && r.value.Valid()
              && r.value.lineSize == lineSize && r.value.maxSize == maxSize && r.value.style == style
              && r.value.front == front && r.value.rear == rear
              && forall b :: !IsSet(r.value.bits, b)
    ensures r.Err? ==> r.error == ValueError
  {
    if lineSize <= 0 || maxSize <= 0 {
      return Err(ValueError);
    }
    var bar := new BitmapProgressBar(lineSize, maxSize, front, rear, style);
    return Ok(bar);
  }

  /** The tally is the number of set bits. */
  lemma {:induction false} TallyCounts(bits: map<int, bool>, lo: int, hi: int)
    ensures Tally(bits, lo, hi) == |set b | b in bits && bits[b] && lo <= b < hi|
    decreases hi - lo
  {
    var all := set b | b in bits && bits[b] && lo <= b < hi;
    if lo < hi {
      TallyCounts(bits, lo, hi - 1);
      var less := set b | b in bits && bits[b] && lo <= b < hi - 1;
      if hi - 1 in bits && bits[hi - 1] {
        assert all == less + {hi - 1};
      } else {
        assert all == less;
      }
    } else {
      assert all == {};
    }
  }

  // ----- what the bar tells

  lemma {:induction false} TallySplits(bits: map<int, bool>, lo: int, mid: int, hi: int)
    requires lo <= mid <= hi
    ensures Tally(bits, lo, hi) == Tally(bits, lo, mid) + Tally(bits, mid, hi)
    decreases hi - mid
  {
    if mid < hi {
      TallySplits(bits, lo, mid, hi - 1);
    }
  }

  /** The sum of the tallies of the first `t` columns. */
  ghost function ColumnTotals(bits: map<int, bool>, t: nat, lineSize: int, maxSize: int): nat
    requires lineSize > 0
  {
    if t == 0 then 0
    else ColumnTotals(bits, t - 1, lineSize, maxSize)
         + Tally(bits, Edge(t - 1, lineSize, maxSize), Edge(t, lineSize, maxSize))
  }

  /** No set bit is lost and none is counted twice, but for the last one. */
  lemma {:induction false} ColumnsConserveBits(bits: map<int, bool>, t: nat, lineSize: int, maxSize: int)
    requires 0 < lineSize < maxSize && t <= lineSize
    ensures ColumnTotals(bits, t, lineSize, maxSize) == Tally(bits, 1, Edge(t, lineSize, maxSize))
    ensures t == lineSize ==> ColumnTotals(bits, t, lineSize, maxSize) == Tally(bits, 1, maxSize)
  {
    if t > 0 {
      ColumnsConserveBits(bits, t - 1, lineSize, maxSize);
      EdgesOrdered(0, t - 1, lineSize, maxSize);
      EdgesOrdered(t - 1, t, lineSize, maxSize);
      TallySplits(bits, 1, Edge(t - 1, lineSize, maxSize), Edge(t, lineSize, maxSize));
    }
    WideEnds(lineSize, maxSize);
  }

  lemma QuotientRises(a: int, b: int, d: int)
    requires d > 0 && a <= b
    ensures a / d <= b / d
  {
    DivisionBounds(a, d);
    DivisionBounds(b, d);
    assert d * (a / d - b / d) < d;
    ScaledBelow(a / d - b / d, d);
  }

  lemma EighthsOf(t: nat, d: nat)
    requires 0 < d && t <= d
    ensures 0 <= 8 * t / d <= 8
    ensures 8 * t / d == 8 <==> t == d
  {
    QuotientRises(0, 8 * t, d);
    QuotientIs(8 * d, d, 8);
    QuotientRises(8 * t, 8 * d, d);
    DivisionBounds(8 * t, d);
  }

  /** Marking more bits never lowers a column. */
  lemma LevelsOnlyRise(bits: map<int, bool>, more: map<int, bool>, bucket: (int, int))
    requires bucket.0 < bucket.1
    requires forall b :: IsSet(bits, b) ==> IsSet(more, b)
    ensures Level(bits, bucket) <= Level(more, bucket)
  {
    TallyRises(bits, more, bucket.0, bucket.1);
    QuotientRises(8 * Tally(bits, bucket.0, bucket.1), 8 * Tally(more, bucket.0, bucket.1), bucket.1 - bucket.0);
  }

  lemma {:induction false} TallyRises(bits: map<int, bool>, more: map<int, bool>, lo: int, hi: int)
    requires lo <= hi && forall b :: IsSet(bits, b) ==> IsSet(more, b)
    ensures Tally(bits, lo, hi) <= Tally(more, lo, hi)
    decreases hi - lo
  {
    if lo < hi {
      TallyRises(bits, more, lo, hi - 1);
      assert IsSet(bits, hi - 1) ==> IsSet(more, hi - 1);
    }
  }

  lemma {:induction false} TallyIsFull(bits: map<int, bool>, lo: int, hi: int)
    requires lo <= hi
    ensures Tally(bits, lo, hi) == hi - lo <==> forall b :: lo <= b < hi ==> IsSet(bits, b)
    decreases hi - lo
  {
    if lo < hi {
      TallyIsFull(bits, lo, hi - 1);
      assert (forall b :: lo <= b < hi ==> IsSet(bits, b)) <==>
             (forall b :: lo <= b < hi - 1 ==> IsSet(bits, b)) && IsSet(bits, hi - 1);
    }
  }

  /** A column is drawn full exactly when every bit it shows is set. */
  lemma FullCellIff(bits: map<int, bool>, bucket: (int, int))
    requires bucket.0 < bucket.1
    ensures 0 <= Level(bits, bucket) <= 8
    ensures Level(bits, bucket) == 8 <==> forall b :: bucket.0 <= b < bucket.1 ==> IsSet(bits, b)
  {
    EighthsOf(Tally(bits, bucket.0, bucket.1), bucket.1 - bucket.0);
    TallyIsFull(bits, bucket.0, bucket.1);
  }

  /** Column `s` of a wide bar is drawn, and full. */
  ghost predicate ColumnFull(bits: map<int, bool>, s: int, lineSize: int, maxSize: int)
    requires lineSize > 0
  {
    var lo, hi := Edge(s - 1, lineSize, maxSize), Edge(s, lineSize, maxSize);
    lo < hi && Level(bits, (lo, hi)) == 8
  }

  lemma ColumnFullIff(bits: map<int, bool>, s: int, lineSize: int, maxSize: int)
    requires 0 < lineSize < maxSize && 2 * maxSize >= 3 * lineSize && 1 <= s <= lineSize
    ensures ColumnFull(bits, s, lineSize, maxSize)
            <==> forall b :: InColumn(b, s, lineSize, maxSize) ==> IsSet(bits, b)
  {
    if s == 1 {
      WideEnds(lineSize, maxSize);
      FirstColumnIsEmptyIff(lineSize, maxSize);
    } else {
      WideColumnSize(s, lineSize, maxSize);
    }
    FullCellIff(bits, (Edge(s - 1, lineSize, maxSize), Edge(s, lineSize, maxSize)));
  }

  /** A wide bar is drawn full exactly when every bit but the last is set: the last is never looked at. */
  lemma FullWideBarIff(bits: map<int, bool>, lineSize: int, maxSize: int)
    requires 0 < lineSize < maxSize && 2 * maxSize >= 3 * lineSize
    ensures (forall s :: 1 <= s <= lineSize ==> ColumnFull(bits, s, lineSize, maxSize))
            <==> (forall b :: 1 <= b < maxSize ==> IsSet(bits, b))
  {
    if forall s :: 1 <= s <= lineSize ==> ColumnFull(bits, s, lineSize, maxSize) {
      forall b | 1 <= b < maxSize
        ensures IsSet(bits, b)
      {
        WideColumnsCover(lineSize, maxSize, b);
        var s :| InColumn(b, s, lineSize, maxSize);
        ColumnFullIff(bits, s, lineSize, maxSize);
      }
    }
    if forall b :: 1 <= b < maxSize ==> IsSet(bits, b) {
      forall s | 1 <= s <= lineSize
        ensures ColumnFull(bits, s, lineSize, maxSize)
      {
        ColumnFullIff(bits, s, lineSize, maxSize);
        WideEnds(lineSize, maxSize);
        EdgesOrdered(0, s - 1, lineSize, maxSize);
        EdgesOrdered(s, lineSize, lineSize, maxSize);
      }
    }
  }

  /** A bar with no more bits than columns is drawn full exactly when every bit is set. */
  lemma FullNarrowBarIff(bits: map<int, bool>, lineSize: int, maxSize: int, buckets: seq<(int, int)>)
    requires 0 < maxSize <= lineSize == |buckets|
    requires forall i :: 0 <= i < lineSize ==>
               buckets[i].1 == buckets[i].0 + 1 && Shows(buckets[i].0, i + 1, lineSize, maxSize)
    ensures (forall i :: 0 <= i < lineSize ==> Level(bits, buckets[i]) == 8)
            <==> (forall b :: 1 <= b <= maxSize ==> IsSet(bits, b))
  {
    forall i | 0 <= i < lineSize
      ensures Level(bits, buckets[i]) == 8 <==> IsSet(bits, buckets[i].0)
    {
      FullCellIff(bits, buckets[i]);
    }
    if forall i :: 0 <= i < lineSize ==> Level(bits, buckets[i]) == 8 {
      EveryBitIsShown(lineSize, maxSize);
      forall b | 1 <= b <= maxSize
        ensures IsSet(bits, b)
      {
        var s := Reach(b, lineSize, maxSize);
        assert Shows(b, s, lineSize, maxSize) && Shows(buckets[s - 1].0, s, lineSize, maxSize);
      }
    }
  }
}

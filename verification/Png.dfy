/** Row reconstruction of scripts/release/icon_policy.py against the filters of section 9 of the W3C
    PNG specification. */
module Png {
  import opened Bytes
  import opened Results

  datatype PngError = OutOfRange | UnknownFilter(filter: byte)
  type Decoded<+T> = Result<T, PngError>

  // ------------------------------------------------------------- standard

  function Abs(n: int): (r: nat)
    ensures r == n || r == -n
  {
    if n < 0 then -n else n
  }

  /** Section 9.4: the neighbour nearest to the estimate, ties going left, then above. */
  function Paeth(a: byte, b: byte, c: byte): byte {
    var p: int := a as int + b as int - c as int;
    var pa, pb, pc := Abs(p - a as int), Abs(p - b as int), Abs(p - c as int);
    if pa <= pb && pa <= pc then a else if pb <= pc then b else c
  }

  /** Section 9.2: what each filter type predicts from the bytes to the left, above and above left. */
  function Predict(filter: byte, a: byte, b: byte, c: byte): int {
    match filter
    case 1 => a
    case 2 => b
    case 3 => (a as int + b as int) / 2
    case 4 => Paeth(a, b, c)
    case _ => 0
  }

  /** Section 9.4 without the computation: of the three neighbours, r is at the least distance from the
      estimate a + b - c, and among those at that distance a comes first, then b. */
  ghost predicate IsNearest(a: byte, b: byte, c: byte, r: byte) {
    var p: int := a as int + b as int - c as int;
    && r in {a, b, c}
    && Abs(p - r as int) <= Abs(p - a as int) && Abs(p - r as int) <= Abs(p - b as int) && Abs(p - r as int) <= Abs(p - c as int)
    && (Abs(p - a as int) <= Abs(p - r as int) ==> r == a)
    && (Abs(p - b as int) <= Abs(p - r as int) ==> r == a || r == b)
  }

  lemma PaethIsNearest(a: byte, b: byte, c: byte, r: byte)
    ensures r == Paeth(a, b, c) <==> IsNearest(a, b, c, r)
  {
    assert IsNearest(a, b, c, Paeth(a, b, c));
    if IsNearest(a, b, c, r) { NearestIsUnique(a, b, c, r, Paeth(a, b, c)); }
  }

  lemma NearestIsUnique(a: byte, b: byte, c: byte, r: byte, t: byte)
    requires IsNearest(a, b, c, r) && IsNearest(a, b, c, t)
    ensures r == t
  {
    assert Abs(a as int + b as int - c as int - r as int) == Abs(a as int + b as int - c as int - t as int);
  }

  /** Sections 9.2 to 9.4, of one byte: what was read, its neighbours to the left, above and above left, and
      what it becomes. */
  ghost predicate IsRebuilt(filter: byte, read: byte, a: byte, b: byte, c: byte, x: byte) {
    && (filter == 0 ==> x == read)
    && (filter == 1 ==> x == (read + a) % 256)
    && (filter == 2 ==> x == (read + b) % 256)
    && (filter == 3 ==> exists q: nat :: 2 * q <= a + b <= 2 * q + 1 && x == (read + q) % 256)
    && (filter == 4 ==> exists r: byte :: IsNearest(a, b, c, r) && x == (read + r) % 256)
  }

  /** The byte `bpp` places to the left, zero before the row starts. */
  function Left(row: Text, bpp: nat, i: nat): byte
    requires i <= |row| && bpp > 0
  {
    if i >= bpp then row[i - bpp] else 0
  }

  function Prediction(filter: byte, row: Text, prev: Text, bpp: nat, i: nat): int
    requires i <= |row| && i < |prev| && bpp > 0
  {
    Predict(filter, Left(row, bpp, i), prev[i], Left(prev, bpp, i))
  }

  /** The first `n` bytes of a row as the standard's encoder filters them. */
  ghost function Filtered(filter: byte, row: Text, prev: Text, bpp: nat, n: nat): (f: Text)
    requires n <= |row| == |prev| && bpp > 0
    ensures |f| == n
  {
    if n == 0 then []
    else Filtered(filter, row, prev, bpp, n - 1) + [(row[n - 1] - Prediction(filter, row, prev, bpp, n - 1)) % 256]
  }

  /** The first `n` bytes as the standard's decoder rebuilds them. */
  ghost function Rebuilt(filter: byte, line: Text, prev: Text, bpp: nat, n: nat): (r: Text)
    requires n <= |line| == |prev| && bpp > 0
    ensures |r| == n
  {
    if n == 0 then []
    else
      var before := Rebuilt(filter, line, prev, bpp, n - 1);
      before + [(line[n - 1] + Prediction(filter, before, prev, bpp, n - 1)) % 256]
  }

  /** Byte by byte, without naming the predictor. */
  lemma {:induction false} RebuiltByte(filter: byte, line: Text, prev: Text, bpp: nat, n: nat, i: nat)
    requires i < n <= |line| == |prev| && bpp > 0 && filter <= 4
    ensures var row := Rebuilt(filter, line, prev, bpp, n);
            IsRebuilt(filter, line[i], if i >= bpp then row[i - bpp] else 0, prev[i], if i >= bpp then prev[i - bpp] else 0, row[i])
  {
    if i < n - 1 {
      RebuiltByte(filter, line, prev, bpp, n - 1, i);
    } else {
      var before := Rebuilt(filter, line, prev, bpp, i);
      var a, b, c := Left(before, bpp, i), prev[i], Left(prev, bpp, i);
      PredictedByte(filter, line[i], a, b, c);
    }
  }

  lemma PredictedByte(filter: byte, read: byte, a: byte, b: byte, c: byte)
    requires filter <= 4
    ensures IsRebuilt(filter, read, a, b, c, (read + Predict(filter, a, b, c)) % 256)
  {
    PaethIsNearest(a, b, c, Paeth(a, b, c));
    if filter == 3 {
      var q: nat := Predict(filter, a, b, c);
      assert 2 * q <= a + b <= 2 * q + 1;
    }
  }

  lemma ModularInverse(x: byte, y: byte, p: int)
    ensures (x - p) % 256 == y <==> (y + p) % 256 == x
  {
    var q := p % 256;
    assert p == 256 * (p / 256) + q;
    assert (x - p) % 256 == (x - q) % 256 by { assert x - p == x - q + 256 * -(p / 256); }
    assert (y + p) % 256 == (y + q) % 256 by { assert y + p == y + q + 256 * (p / 256); }
  }

  /** Filtering and rebuilding are inverse, in both directions. */
  lemma {:induction false} RebuildInvertsFilter(filter: byte, row: Text, line: Text, prev: Text, bpp: nat, n: nat)
    requires n <= |row| == |prev| == |line| && bpp > 0
    ensures line[..n] == Filtered(filter, row, prev, bpp, n) <==> row[..n] == Rebuilt(filter, line, prev, bpp, n)
  {
    if n > 0 {
      RebuildInvertsFilter(filter, row, line, prev, bpp, n - 1);
      var f, r := Filtered(filter, row, prev, bpp, n - 1), Rebuilt(filter, line, prev, bpp, n - 1);
      OneMore(line, f, n - 1, (row[n - 1] - Prediction(filter, row, prev, bpp, n - 1)) % 256);
      OneMore(row, r, n - 1, (line[n - 1] + Prediction(filter, r, prev, bpp, n - 1)) % 256);
      if row[..n - 1] == r {
        assert Left(r, bpp, n - 1) == Left(row, bpp, n - 1);
        ModularInverse(row[n - 1], line[n - 1], Prediction(filter, row, prev, bpp, n - 1));
      }
    }
  }

  lemma OneMore(s: Text, front: Text, n: nat, b: byte)
    requires n < |s| && |front| == n
    ensures s[..n + 1] == front + [b] <==> s[..n] == front && s[n] == b
  {
    assert s[..n + 1] == s[..n] + [s[n]];
    assert (front + [b])[..n] == front && (front + [b])[n] == b;
  }

  // --------------------------------------------------------------- decoder

  /** Does the loop for this filter run off the end of a line of `length` bytes? */
  predicate RunsOff(filter: byte, length: nat, bpp: nat, stride: nat) {
    length < stride && (2 <= filter <= 4 || (filter == 1 && bpp < stride))
  }

  /** What one row becomes; a short line that no loop runs off is kept as it is. */
  ghost function Row(filter: byte, line: Text, prev: Text, bpp: nat, stride: nat): Decoded<Text>
    requires |line| <= stride == |prev| && bpp > 0
  {
    if filter > 4 then Bad(UnknownFilter(filter))
    else if RunsOff(filter, |line|, bpp, stride) then Bad(OutOfRange)
    else if |line| < stride then Ok(line)
    else Ok(Rebuilt(filter, line, prev, bpp, stride))
  }

  /** A Python slice: cut off at the end of the data. */
  function Slice(raw: Text, lo: nat, hi: nat): (s: Text)
    requires lo <= hi
    ensures |s| <= hi - lo
  {
    if lo >= |raw| then [] else if hi >= |raw| then raw[lo..] else raw[lo..hi]
  }

  /** The `n` rows from `p` on, below the row `prev`. */
  ghost function Rows(raw: Text, p: nat, prev: Text, bpp: nat, stride: nat, n: nat): Decoded<Text>
    requires bpp > 0 && (|prev| == stride || p >= |raw|)
    decreases n
  {
    if n == 0 then Ok([])
    else if p >= |raw| then Bad(OutOfRange)
    else
      var row :- Row(raw[p], Slice(raw, p + 1, p + 1 + stride), prev, bpp, stride);
      Prepend(row, Rows(raw, p + 1 + stride, row, bpp, stride, n - 1))
  }

  function Zeros(n: nat): (z: Text)
    ensures |z| == n
  {
    seq(n, _ => 0)
  }

  ghost function Pixels(raw: Text, stride: nat, height: nat, channels: nat): Decoded<Text>
    requires channels > 0
  {
    Rows(raw, 0, Zeros(stride), channels, stride, height)
  }

  /** `n * stride`, one row at a time. */
  function Area(n: nat, stride: nat): nat {
    if n == 0 then 0 else Area(n - 1, stride) + stride
  }

  ghost function Prepend(read: Text, rest: Decoded<Text>): Decoded<Text> {
    var r :- rest;
    Ok(read + r)
  }

  /** The first `i` bytes of a full line are rebuilt, the others still as they were read. */
  ghost predicate Partly(filter: byte, was: Text, now: Text, prev: Text, bpp: nat, i: nat)
    requires bpp > 0 && i <= |was|
  {
    |was| == |now| && (|was| == |prev| ==> now == Rebuilt(filter, was, prev, bpp, i) + was[i..])
  }

  lemma StepRebuilds(filter: byte, was: Text, now: Text, prev: Text, bpp: nat, i: nat)
    requires bpp > 0 && i < |was| == |now| <= |prev| && Partly(filter, was, now, prev, bpp, i)
    ensures Partly(filter, was, now[i := (now[i] + Prediction(filter, now, prev, bpp, i)) % 256], prev, bpp, i + 1)
  {
    if |was| == |prev| {
      var before := Rebuilt(filter, was, prev, bpp, i);
      assert now[i] == was[i] && Left(now, bpp, i) == Left(before, bpp, i);
    }
  }

  /** Nothing is to the left of the first pixel. */
  lemma {:induction false} FirstPixelStays(line: Text, prev: Text, bpp: nat, n: nat)
    requires n <= |line| == |prev| && n <= bpp && bpp > 0
    ensures Rebuilt(1, line, prev, bpp, n) == line[..n]
  {
    if n > 0 {
      FirstPixelStays(line, prev, bpp, n - 1);
      assert line[..n] == line[..n - 1] + [line[n - 1]];
    }
  }

  /** A byte of the line, rebuilt modulo 256. */
  method Add(line: array<byte>, i: nat, predicted: int, ghost filter: byte, ghost was: Text, ghost prev: Text, ghost bpp: nat)
    requires bpp > 0 && i < |was| == line.Length <= |prev| && Partly(filter, was, line[..], prev, bpp, i)
    requires predicted == Prediction(filter, line[..], prev, bpp, i)
    modifies line
    ensures Partly(filter, was, line[..], prev, bpp, i + 1)
  {
    ghost var now := line[..];
    StepRebuilds(filter, was, now, prev, bpp, i);
    var b: byte := (line[i] as int + predicted) % 256;
    line[i] := b;
    assert line[..] == now[i := b];
  }

  method Sub(line: array<byte>, prev: array<byte>, channels: nat, stride: nat) returns (inRange: bool)
    requires line.Length <= stride == prev.Length && channels > 0 && line != prev
    modifies line
    ensures inRange <==> !RunsOff(1, line.Length, channels, stride)
    ensures inRange && line.Length == stride ==> line[..] == Rebuilt(1, old(line[..]), prev[..], channels, stride)
    ensures inRange && line.Length < stride ==> line[..] == old(line[..])
  {
    ghost var was := line[..];
    var i := channels;
    if line.Length == stride {
      FirstPixelStays(was, prev[..], channels, if channels < stride then channels else stride);
      assert was == was[..if channels < stride then channels else stride] + was[if channels < stride then channels else stride..];
    }
    while i < stride
      invariant channels <= i && (i <= line.Length || i == channels)
      invariant i <= line.Length ==> Partly(1, was, line[..], prev[..], channels, i)
      invariant i == channels ==> line[..] == was
    {
      if i >= line.Length { return false; }
      Add(line, i, line[i - channels], 1, was, prev[..], channels);
      i := i + 1;
    }
    inRange := true;
  }

  method Up(line: array<byte>, prev: array<byte>, channels: nat, stride: nat) returns (inRange: bool)
    requires line.Length <= stride == prev.Length && channels > 0 && line != prev
    modifies line
    ensures inRange <==> line.Length == stride
    ensures inRange ==> line[..] == Rebuilt(2, old(line[..]), prev[..], channels, stride)
  {
    ghost var was := line[..];
    var i := 0;
    while i < stride
      invariant i <= line.Length && Partly(2, was, line[..], prev[..], channels, i)
    {
      if i >= line.Length { return false; }
      Add(line, i, prev[i], 2, was, prev[..], channels);
      i := i + 1;
    }
    inRange := true;
  }

  method AverageByte(line: array<byte>, prev: array<byte>, channels: nat, i: nat, ghost was: Text)
    requires channels > 0 && i < |was| == line.Length <= prev.Length && line != prev
    requires Partly(3, was, line[..], prev[..], channels, i)
    modifies line
    ensures Partly(3, was, line[..], prev[..], channels, i + 1)
  {
    var a: int := if i >= channels then line[i - channels] else 0;
    Add(line, i, (a + prev[i] as int) / 2, 3, was, prev[..], channels);
  }

  method Average(line: array<byte>, prev: array<byte>, channels: nat, stride: nat) returns (inRange: bool)
    requires line.Length <= stride == prev.Length && channels > 0 && line != prev
    modifies line
    ensures inRange <==> line.Length == stride
    ensures inRange ==> line[..] == Rebuilt(3, old(line[..]), prev[..], channels, stride)
  {
    ghost var was := line[..];
    var i := 0;
    while i < stride
      invariant i <= line.Length && Partly(3, was, line[..], prev[..], channels, i)
    {
      if i >= line.Length { return false; }
      AverageByte(line, prev, channels, i, was);
      i := i + 1;
    }
    inRange := true;
  }

  method Nearest(a: byte, b: byte, c: byte) returns (pr: byte)
    ensures pr == Paeth(a, b, c)
  {
    var x: int, y: int, z: int := a, b, c;
    var pp := x + y - z;
    var pa, pb, pc := Abs(pp - x), Abs(pp - y), Abs(pp - z);
    pr := if pa <= pb && pa <= pc then a else if pb <= pc then b else c;
  }

  method PaethByte(line: array<byte>, prev: array<byte>, channels: nat, i: nat, ghost was: Text)
    requires channels > 0 && i < |was| == line.Length <= prev.Length && line != prev
    requires Partly(4, was, line[..], prev[..], channels, i)
    modifies line
    ensures Partly(4, was, line[..], prev[..], channels, i + 1)
  {
    var a := if i >= channels then line[i - channels] else 0;
    var b := prev[i];
    var c := if i >= channels then prev[i - channels] else 0;
    var pr := Nearest(a, b, c);
    Add(line, i, pr, 4, was, prev[..], channels);
  }

  method PaethRow(line: array<byte>, prev: array<byte>, channels: nat, stride: nat) returns (inRange: bool)
    requires line.Length <= stride == prev.Length && channels > 0 && line != prev
    modifies line
    ensures inRange <==> line.Length == stride
    ensures inRange ==> line[..] == Rebuilt(4, old(line[..]), prev[..], channels, stride)
  {
    ghost var was := line[..];
    var i := 0;
    while i < stride
      invariant i <= line.Length && Partly(4, was, line[..], prev[..], channels, i)
    {
      if i >= line.Length { return false; }
      PaethByte(line, prev, channels, i, was);
      i := i + 1;
    }
    inRange := true;
  }

  /** One row, rebuilt in place. */
  method Reconstruct(filter: byte, line: array<byte>, prev: array<byte>, channels: nat, stride: nat) returns (e: Option<PngError>)
    requires line.Length <= stride == prev.Length && channels > 0 && line != prev
    modifies line
    ensures Row(filter, old(line[..]), prev[..], channels, stride) == if e.Some? then Bad(e.value) else Ok(line[..])
  {
    ghost var was := line[..];
    var inRange := true;
    if filter == 1 {
      inRange := Sub(line, prev, channels, stride);
    } else if filter == 2 {
      inRange := Up(line, prev, channels, stride);
    } else if filter == 3 {
      inRange := Average(line, prev, channels, stride);
    } else if filter == 4 {
      inRange := PaethRow(line, prev, channels, stride);
    } else if filter != 0 {
      return Some(UnknownFilter(filter));
    } else if line.Length == stride {
      NoneStays(was, prev[..], channels, stride);
      assert was[..stride] == was;
    }
    e := if inRange then None else Some(OutOfRange);
  }

  lemma {:induction false} NoneStays(line: Text, prev: Text, bpp: nat, n: nat)
    requires n <= |line| == |prev| && bpp > 0
    ensures Rebuilt(0, line, prev, bpp, n) == line[..n]
  {
    if n > 0 {
      NoneStays(line, prev, bpp, n - 1);
      assert line[..n] == line[..n - 1] + [line[n - 1]];
    }
  }

  /** The rows read before the read reaches `p`, below the row `prev`, and the output so far. */
  ghost predicate SoFar(raw: Text, bpp: nat, stride: nat, height: nat, y: nat, p: nat, prev: Text, read: Text, out: Text) {
    && bpp > 0 && y <= height && (|prev| == stride || p >= |raw|)
    && (p < |raw| ==> |read| == Area(y, stride))
    && out == read + Zeros(Area(height - y, stride))
    && Pixels(raw, stride, height, bpp) == Prepend(read, Rows(raw, p, prev, bpp, stride, height - y))
  }

  lemma NothingYet(raw: Text, bpp: nat, stride: nat, height: nat)
    requires bpp > 0
    ensures SoFar(raw, bpp, stride, height, 0, 0, Zeros(stride), [], Zeros(Area(height, stride)))
  {
    PrependNothing(Rows(raw, 0, Zeros(stride), bpp, stride, height));
    assert [] + Zeros(Area(height, stride)) == Zeros(Area(height, stride));
  }

  /** The loop over the rows; `stride` is the width times the channels.  Assigning a short line to a
      slice of `out` shortens it. */
  method ReadRows(raw: Text, stride: nat, height: nat, channels: nat) returns (r: Decoded<Text>)
    requires channels > 0
    ensures r == Pixels(raw, stride, height, channels)
  {
    NothingYet(raw, channels, stride, height);
    var prev := Copy(Zeros(stride));
    var out := Zeros(Area(height, stride));
    var p: nat := 0;
    ghost var read: Text := [];
    for y := 0 to height
      invariant fresh(prev) && SoFar(raw, channels, stride, height, y, p, prev[..], read, out)
    {
      var row := NextRow(raw, p, prev, channels, stride, height - y, read);
      if row.Bad? { return Bad(row.error); }
      out := PutRow(raw, channels, height, y, p, prev[..], stride, out, row.value[..], read);
      read := read + row.value[..];
      p, prev := p + 1 + stride, row.value;
    }
    assert read + [] == read && out == read + Zeros(0);
    r := Ok(out);
  }

  /** The row takes its place in the output. */
  method PutRow(ghost raw: Text, ghost bpp: nat, ghost height: nat, y: nat, ghost p: nat, ghost prev: Text,
                stride: nat, out: Text, line: Text, ghost read: Text) returns (r: Text)
    requires SoFar(raw, bpp, stride, height, y, p, prev, read, out) && y < height && p < |raw| && |prev| == stride
    requires Row(raw[p], Slice(raw, p + 1, p + 1 + stride), prev, bpp, stride) == Ok(line)
    ensures SoFar(raw, bpp, stride, height, y + 1, p + 1 + stride, line, read + line, r)
  {
    RowsStep(raw, p, prev, line, bpp, stride, height - y, read);
    OutputGrows(out, read, line, stride, Area(height - y - 1, stride));
    r := out[..Area(y, stride)] + line + out[Area(y + 1, stride)..];
  }

  method NextRow(raw: Text, p: nat, prev: array<byte>, channels: nat, stride: nat, ghost n: nat, ghost read: Text)
    returns (r: Decoded<array<byte>>)
    requires (prev.Length == stride || p >= |raw|) && channels > 0 && n > 0
    ensures r.Bad? ==> Prepend(read, Rows(raw, p, prev[..], channels, stride, n)) == Bad(r.error)
    ensures r.Ok? ==> fresh(r.value) && p < |raw| && prev.Length == stride
                      && Row(raw[p], Slice(raw, p + 1, p + 1 + stride), prev[..], channels, stride) == Ok(r.value[..])
  {
    if p >= |raw| { return Bad(OutOfRange); }
    var line := Copy(Slice(raw, p + 1, p + 1 + stride));
    var e := Reconstruct(raw[p], line, prev, channels, stride);
    r := if e.Some? then Bad(e.value) else Ok(line);
  }

  method Copy(t: Text) returns (a: array<byte>)
    ensures fresh(a) && a[..] == t
  {
    a := new byte[|t|](i requires 0 <= i < |t| => t[i]);
  }

  /** Overwriting a row of zeros behind `read`, with `tail` zeros after it. */
  lemma OutputGrows(out: Text, read: Text, row: Text, stride: nat, tail: nat)
    requires out == read + Zeros(stride + tail)
    ensures out[..|read|] + row + out[|read| + stride..] == read + row + Zeros(tail)
  {
    assert out[..|read|] == read;
    assert out[|read| + stride..] == Zeros(tail);
  }

  /** One turn of the loop over the rows. */
  lemma RowsStep(raw: Text, p: nat, prev: Text, row: Text, bpp: nat, stride: nat, n: nat, read: Text)
    requires p < |raw| && |prev| == stride && bpp > 0 && n > 0
    requires Row(raw[p], Slice(raw, p + 1, p + 1 + stride), prev, bpp, stride) == Ok(row)
    ensures |row| == stride || p + 1 + stride >= |raw|
    ensures Prepend(read, Rows(raw, p, prev, bpp, stride, n))
            == Prepend(read + row, Rows(raw, p + 1 + stride, row, bpp, stride, n - 1))
  {
    PrependTwice(read, row, Rows(raw, p + 1 + stride, row, bpp, stride, n - 1));
  }

  lemma PrependNothing(rest: Decoded<Text>)
    ensures Prepend([], rest) == rest
  {
    if rest.Ok? { assert [] + rest.value == rest.value; }
  }

  lemma PrependTwice(a: Text, b: Text, rest: Decoded<Text>)
    ensures Prepend(a, Prepend(b, rest)) == Prepend(a + b, rest)
  {
    if rest.Ok? { assert a + (b + rest.value) == (a + b) + rest.value; }
  }

  // ---------------------------------------------------------------- images

  /** A last row that breaks off and is read all the same: not filtered, or a single pixel under the
      filter that only looks to the left. */
  ghost predicate BreaksOff(rest: Text, bpp: nat, stride: nat) {
    0 < |rest| <= stride && (rest[0] == 0 || (rest[0] == 1 && stride <= bpp))
  }

  /** `data` starts with a row under a filter as the standard writes it. */
  ghost predicate StartsWithRow(data: Text, filter: byte, row: Text, prev: Text, bpp: nat)
    requires bpp > 0
  {
    && filter <= 4 && |row| == |prev| && 1 + |prev| <= |data|
    && data[0] == filter && data[1..1 + |prev|] == Filtered(filter, row, prev, bpp, |prev|)
  }

  /** `data` is the encoding of `n` rows, each under its filter, and whatever follows; or of `n - 1`
      rows and the start of one more. */
  ghost predicate IsEncoding(data: Text, rows: seq<Text>, filters: seq<byte>, rest: Text, prev: Text, bpp: nat, n: nat)
    requires bpp > 0
    decreases |rows|
  {
    if rows == [] then filters == [] && data == rest && (n == 0 || (n == 1 && BreaksOff(rest, bpp, |prev|)))
    else
      && filters != [] && n > 0 && StartsWithRow(data, filters[0], rows[0], prev, bpp)
      && IsEncoding(data[1 + |prev|..], rows[1..], filters[1..], rest, rows[0], bpp, n - 1)
  }

  ghost function Flatten(rows: seq<Text>): Text {
    if rows == [] then [] else rows[0] + Flatten(rows[1..])
  }

  /** The pixels of the rows, with those of a row that broke off. */
  ghost function Shown(rows: seq<Text>, rest: Text, n: nat): Text {
    Flatten(rows) + if |rows| < n && rest != [] then rest[1..] else []
  }

  lemma FilteredIsRebuilt(filter: byte, row: Text, prev: Text, bpp: nat)
    requires |row| == |prev| && bpp > 0
    ensures Rebuilt(filter, Filtered(filter, row, prev, bpp, |prev|), prev, bpp, |prev|) == row
  {
    var line := Filtered(filter, row, prev, bpp, |prev|);
    RebuildInvertsFilter(filter, row, line, prev, bpp, |prev|);
    assert line[..|prev|] == line && row[..|prev|] == row;
  }

  lemma RebuiltIsFiltered(filter: byte, line: Text, prev: Text, bpp: nat)
    requires |line| == |prev| && bpp > 0
    ensures Filtered(filter, Rebuilt(filter, line, prev, bpp, |prev|), prev, bpp, |prev|) == line
  {
    var row := Rebuilt(filter, line, prev, bpp, |prev|);
    RebuildInvertsFilter(filter, row, line, prev, bpp, |prev|);
    assert line[..|prev|] == line && row[..|prev|] == row;
  }

  /** The row at `p`, read in full, is the one that was encoded there. */
  lemma RowIsRead(raw: Text, p: nat, row: Text, prev: Text, bpp: nat)
    requires bpp > 0 && p < |raw| && |Slice(raw, p + 1, p + 1 + |prev|)| == |prev|
    ensures Row(raw[p], Slice(raw, p + 1, p + 1 + |prev|), prev, bpp, |prev|) == Ok(row)
            <==> StartsWithRow(raw[p..], raw[p], row, prev, bpp)
  {
    var line := Slice(raw, p + 1, p + 1 + |prev|);
    assert p + 1 + |prev| <= |raw|;
    assert raw[p..][1..1 + |prev|] == line;
    RebuiltIsFiltered(raw[p], line, prev, bpp);
    if |row| == |prev| { FilteredIsRebuilt(raw[p], row, prev, bpp); }
  }

  /** Decoding recovers what was encoded, whatever filters were chosen. */
  lemma {:induction false} EncodedIsRead(raw: Text, p: nat, rows: seq<Text>, filters: seq<byte>, rest: Text, prev: Text, bpp: nat, n: nat)
    requires bpp > 0 && p <= |raw| && IsEncoding(raw[p..], rows, filters, rest, prev, bpp, n)
    ensures Rows(raw, p, prev, bpp, |prev|, n) == Ok(Shown(rows, rest, n))
    decreases n, 1
  {
    if rows == [] {
      NoFullRowIsRead(raw, p, rest, prev, bpp, n);
    } else {
      FirstRowIsRead(raw, p, rows, filters, rest, prev, bpp, n);
      RowAndRestAreRead(raw, p, p + 1 + |prev|, rows[0], rows[1..], filters[1..], rest, prev, bpp, n);
      ShownUnfolds(rows, rest, n);
    }
  }

  lemma {:induction false} RowAndRestAreRead(raw: Text, p: nat, q: nat, row: Text, rows: seq<Text>, filters: seq<byte>, rest: Text,
                                             prev: Text, bpp: nat, n: nat)
    requires bpp > 0 && n > 0 && |row| == |prev| && q == p + 1 + |prev| <= |raw|
    requires Row(raw[p], Slice(raw, p + 1, q), prev, bpp, |prev|) == Ok(row)
    requires IsEncoding(raw[q..], rows, filters, rest, row, bpp, n - 1)
    ensures Rows(raw, p, prev, bpp, |prev|, n) == Ok(row + Shown(rows, rest, n - 1))
    decreases n, 0
  {
    JoinRow(raw, p, prev, row, bpp, n, Shown(rows, rest, n - 1)) by {
      EncodedIsRead(raw, q, rows, filters, rest, row, bpp, n - 1);
    }
  }

  lemma JoinRow(raw: Text, p: nat, prev: Text, row: Text, bpp: nat, n: nat, after: Text)
    requires p < |raw| && bpp > 0 && n > 0 && |row| == |prev|
    requires Row(raw[p], Slice(raw, p + 1, p + 1 + |prev|), prev, bpp, |prev|) == Ok(row)
    requires Rows(raw, p + 1 + |prev|, row, bpp, |prev|, n - 1) == Ok(after)
    ensures Rows(raw, p, prev, bpp, |prev|, n) == Ok(row + after)
  {
    RowsUnfold(raw, p, prev, row, bpp, n);
  }

  lemma FirstRowIsRead(raw: Text, p: nat, rows: seq<Text>, filters: seq<byte>, rest: Text, prev: Text, bpp: nat, n: nat)
    requires bpp > 0 && p <= |raw| && rows != [] && IsEncoding(raw[p..], rows, filters, rest, prev, bpp, n)
    ensures n > 0 && filters != [] && |rows[0]| == |prev| && p + 1 + |prev| <= |raw|
    ensures Row(raw[p], Slice(raw, p + 1, p + 1 + |prev|), prev, bpp, |prev|) == Ok(rows[0])
    ensures IsEncoding(raw[p + 1 + |prev|..], rows[1..], filters[1..], rest, rows[0], bpp, n - 1)
  {
    assert raw[p..][1 + |prev|..] == raw[p + 1 + |prev|..];
    RowIsRead(raw, p, rows[0], prev, bpp);
  }

  lemma RowsUnfold(raw: Text, p: nat, prev: Text, row: Text, bpp: nat, n: nat)
    requires p < |raw| && bpp > 0 && n > 0 && |row| == |prev|
    requires Row(raw[p], Slice(raw, p + 1, p + 1 + |prev|), prev, bpp, |prev|) == Ok(row)
    ensures Rows(raw, p, prev, bpp, |prev|, n) == Prepend(row, Rows(raw, p + 1 + |prev|, row, bpp, |prev|, n - 1))
  {
  }

  lemma ShownUnfolds(rows: seq<Text>, rest: Text, n: nat)
    requires rows != [] && n > 0
    ensures Shown(rows, rest, n) == rows[0] + Shown(rows[1..], rest, n - 1)
  {
  }

  lemma NoFullRowIsRead(raw: Text, p: nat, rest: Text, prev: Text, bpp: nat, n: nat)
    requires bpp > 0 && p <= |raw| && IsEncoding(raw[p..], [], [], rest, prev, bpp, n)
    ensures Rows(raw, p, prev, bpp, |prev|, n) == Ok(Shown([], rest, n))
  {
    assert n == 0 || n == 1;
    if n == 0 {
      assert Shown([], rest, n) == [];
    } else {
      assert raw[p..] == rest && BreaksOff(rest, bpp, |prev|);
      assert Slice(raw, p + 1, p + 1 + |prev|) == rest[1..];
      LastRowIsRead(raw, p, prev, bpp, rest[1..]);
      assert Shown([], rest, n) == rest[1..];
    }
  }

  lemma LastRowIsRead(raw: Text, p: nat, prev: Text, bpp: nat, line: Text)
    requires bpp > 0 && p < |raw| && BreaksOff(raw[p..], bpp, |prev|)
    requires Slice(raw, p + 1, p + 1 + |prev|) == line
    ensures Rows(raw, p, prev, bpp, |prev|, 1) == Ok(line)
  {
    assert Row(raw[p], line, prev, bpp, |prev|) == Ok(line);
    assert Rows(raw, p + 1 + |prev|, line, bpp, |prev|, 0) == Ok([]);
    assert line + [] == line;
  }

  /** Whatever is read was encoded so. */
  lemma {:induction false} ReadIsEncoded(raw: Text, p: nat, prev: Text, bpp: nat, n: nat)
    returns (rows: seq<Text>, filters: seq<byte>, rest: Text)
    requires bpp > 0 && p <= |raw| && Rows(raw, p, prev, bpp, |prev|, n).Ok?
    ensures IsEncoding(raw[p..], rows, filters, rest, prev, bpp, n)
    decreases n
  {
    if n == 0 || p + 1 + |prev| > |raw| {
      rows, filters, rest := [], [], raw[p..];
      if n > 0 { ShortRowBreaksOff(raw, p, prev, bpp, n); }
    } else {
      var row := FullRow(raw, p, prev, bpp, n);
      var rs, fs, r := ReadIsEncoded(raw, p + 1 + |prev|, row, bpp, n - 1);
      AddRow(raw, p, row, rs, fs, r, prev, bpp, n - 1);
      rows, filters, rest := [row] + rs, [raw[p]] + fs, r;
    }
  }

  lemma ShortRowBreaksOff(raw: Text, p: nat, prev: Text, bpp: nat, n: nat)
    requires bpp > 0 && p <= |raw| < p + 1 + |prev| && n > 0 && Rows(raw, p, prev, bpp, |prev|, n).Ok?
    ensures n == 1 && BreaksOff(raw[p..], bpp, |prev|)
  {
    var line := Slice(raw, p + 1, p + 1 + |prev|);
    assert Row(raw[p], line, prev, bpp, |prev|) == Ok(line);
    assert Rows(raw, p + 1 + |prev|, line, bpp, |prev|, n - 1).Ok?;
  }

  lemma FullRow(raw: Text, p: nat, prev: Text, bpp: nat, n: nat) returns (row: Text)
    requires bpp > 0 && p + 1 + |prev| <= |raw| && n > 0 && Rows(raw, p, prev, bpp, |prev|, n).Ok?
    ensures StartsWithRow(raw[p..], raw[p], row, prev, bpp) && Rows(raw, p + 1 + |prev|, row, bpp, |prev|, n - 1).Ok?
  {
    row := Rebuilt(raw[p], Slice(raw, p + 1, p + 1 + |prev|), prev, bpp, |prev|);
    RowIsRead(raw, p, row, prev, bpp);
    RowsUnfold(raw, p, prev, row, bpp, n);
  }

  lemma AddRow(raw: Text, p: nat, row: Text, rows: seq<Text>, filters: seq<byte>, rest: Text, prev: Text, bpp: nat, n: nat)
    requires bpp > 0 && p + 1 + |prev| <= |raw| && StartsWithRow(raw[p..], raw[p], row, prev, bpp)
    requires IsEncoding(raw[p + 1 + |prev|..], rows, filters, rest, row, bpp, n)
    ensures IsEncoding(raw[p..], [row] + rows, [raw[p]] + filters, rest, prev, bpp, n + 1)
  {
    var rs, fs := [row] + rows, [raw[p]] + filters;
    assert rs[1..] == rows && fs[1..] == filters;
    assert raw[p..][1 + |prev|..] == raw[p + 1 + |prev|..];
  }

  /** Every image has an encoding under every choice of filters. */
  lemma {:induction false} EveryImageIsEncoded(rows: seq<Text>, filters: seq<byte>, prev: Text, bpp: nat) returns (data: Text)
    requires bpp > 0 && |rows| == |filters|
    requires forall i :: 0 <= i < |rows| ==> |rows[i]| == |prev| && filters[i] <= 4
    ensures IsEncoding(data, rows, filters, [], prev, bpp, |rows|)
  {
    if rows == [] {
      data := [];
    } else {
      var tail := EveryImageIsEncoded(rows[1..], filters[1..], rows[0], bpp);
      data := [filters[0]] + Filtered(filters[0], rows[0], prev, bpp, |prev|) + tail;
      assert data[1 + |prev|..] == tail;
    }
  }

  /** `raw` is an encoding of the pixels, with any filters and anything after it, or one whose last
      row breaks off. */
  ghost predicate Encodes(raw: Text, px: Text, prev: Text, bpp: nat, n: nat)
    requires bpp > 0
  {
    exists rows: seq<Text>, filters: seq<byte>, rest: Text ::
      IsEncoding(raw, rows, filters, rest, prev, bpp, n) && px == Shown(rows, rest, n)
  }

  /** The reader accepts exactly the encodings and returns the pixels that were encoded. */
  lemma PixelsAreTheRows(raw: Text, stride: nat, height: nat, channels: nat, px: Text)
    requires channels > 0
    ensures Pixels(raw, stride, height, channels) == Ok(px) <==> Encodes(raw, px, Zeros(stride), channels, height)
  {
    var prev := Zeros(stride);
    assert raw[0..] == raw;
    if Pixels(raw, stride, height, channels) == Ok(px) {
      var rows, filters, rest := ReadIsEncoded(raw, 0, prev, channels, height);
      EncodedIsRead(raw, 0, rows, filters, rest, prev, channels, height);
      assert px == Shown(rows, rest, height);
    }
    if Encodes(raw, px, prev, channels, height) {
      var rows: seq<Text>, filters: seq<byte>, rest: Text :|
        IsEncoding(raw, rows, filters, rest, prev, channels, height) && px == Shown(rows, rest, height);
      EncodedIsRead(raw, 0, rows, filters, rest, prev, channels, height);
    }
  }

  /** Three bytes for one row of a single pixel of four channels: read as half a pixel without a filter
      or under the one that looks left, refused under the one that looks above. */
  lemma HalfAPixelIsRead()
    ensures Pixels([0, 7, 9], 4, 1, 4) == Ok([7, 9])
    ensures Pixels([1, 7, 9], 4, 1, 4) == Ok([7, 9])
    ensures Pixels([2, 7, 9], 4, 1, 4) == Bad(OutOfRange)
  {
    OneShortRow([0, 7, 9]);
    OneShortRow([1, 7, 9]);
    OneShortRow([2, 7, 9]);
  }

  lemma OneShortRow(raw: Text)
    requires |raw| == 3
    ensures Pixels(raw, 4, 1, 4) == Row(raw[0], [raw[1], raw[2]], Zeros(4), 4, 4)
  {
    var line := Slice(raw, 1, 5);
    assert line == [raw[1], raw[2]];
    var row := Row(raw[0], line, Zeros(4), 4, 4);
    if row.Ok? { assert row.value + [] == row.value; }
  }

  // --------------------------------------------------- pixel by pixel

  /** Byte i of the row that stands at p and gave `row`, below the row `prev`. */
  ghost predicate ByteIsRebuilt(raw: Text, p: nat, prev: Text, row: Text, bpp: nat, i: nat)
    requires bpp > 0 && i < |row| == |prev| && p + 1 + i < |raw|
  {
    IsRebuilt(raw[p], raw[p + 1 + i], if i >= bpp then row[i - bpp] else 0, prev[i], if i >= bpp then prev[i - bpp] else 0, row[i])
  }

  lemma RowBytes(raw: Text, p: nat, prev: Text, row: Text, bpp: nat)
    requires bpp > 0 && p + 1 + |prev| <= |raw|
    requires Row(raw[p], Slice(raw, p + 1, p + 1 + |prev|), prev, bpp, |prev|) == Ok(row)
    ensures raw[p] <= 4 && |row| == |prev| && forall i :: 0 <= i < |prev| ==> ByteIsRebuilt(raw, p, prev, row, bpp, i)
  {
    var line := raw[p + 1..p + 1 + |prev|];
    assert Slice(raw, p + 1, p + 1 + |prev|) == line;
    forall i | 0 <= i < |prev| ensures ByteIsRebuilt(raw, p, prev, row, bpp, i) {
      RebuiltByte(raw[p], line, prev, bpp, |prev|, i);
    }
  }

  lemma {:induction false} AreaGrows(y: nat, n: nat, stride: nat)
    requires y <= n
    ensures Area(y, stride) <= Area(n, stride)
  {
    if y < n { AreaGrows(y, n - 1, stride); }
  }

  /** Every byte of the image, row by row: its filter is the first byte of its row, and its neighbours are the
      bytes already rebuilt, or zero beside the image. */
  ghost predicate ImageIsRebuilt(raw: Text, p: nat, prev: Text, px: Text, bpp: nat, n: nat)
    requires bpp > 0
    decreases n
  {
    var stride := |prev|;
    if n == 0 then px == []
    else
      && p + 1 + stride <= |raw| && stride <= |px| && raw[p] <= 4
      && (forall i :: 0 <= i < stride ==> ByteIsRebuilt(raw, p, prev, px[..stride], bpp, i))
      && ImageIsRebuilt(raw, p + 1 + stride, px[..stride], px[stride..], bpp, n - 1)
  }

  lemma {:induction false} RowsAreRebuilt(raw: Text, p: nat, prev: Text, bpp: nat, n: nat, px: Text)
    requires bpp > 0 && p + Area(n, |prev| + 1) <= |raw| && Rows(raw, p, prev, bpp, |prev|, n) == Ok(px)
    ensures ImageIsRebuilt(raw, p, prev, px, bpp, n)
    decreases n
  {
    if n > 0 {
      var stride := |prev|;
      AreaGrows(1, n, stride + 1);
      assert Area(1, stride + 1) == Area(0, stride + 1) + stride + 1;
      var row := Row(raw[p], Slice(raw, p + 1, p + 1 + stride), prev, bpp, stride).value;
      RowBytes(raw, p, prev, row, bpp);
      var rest := Rows(raw, p + 1 + stride, row, bpp, stride, n - 1).value;
      RowsAreRebuilt(raw, p + 1 + stride, row, bpp, n - 1, rest);
      assert px[..stride] == row && px[stride..] == rest;
    }
  }

  /** The whole image, from data that holds all its rows: the rows above the first and the pixels to the
      left of each row count as zero. */
  lemma PixelsAreRebuilt(raw: Text, stride: nat, height: nat, channels: nat, px: Text)
    requires channels > 0 && Area(height, stride + 1) <= |raw| && Pixels(raw, stride, height, channels) == Ok(px)
    ensures ImageIsRebuilt(raw, 0, seq(stride, _ => 0), px, channels, height)
  {
    assert Zeros(stride) == seq(stride, _ => 0);
    RowsAreRebuilt(raw, 0, Zeros(stride), channels, height, px);
  }
}

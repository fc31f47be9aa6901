/** Unsigned LEB128: Go's binary.PutUvarint and the Python coder of
    scripts/release/android-keystore-verify.py write the same bytes. */
module Leb128 {
  import opened Bytes
  import opened Results

  /** The exceptions the DEX reader raises. */
  datatype ParseError =
    | TruncatedLeb | LongLeb | NotADex | UnterminatedString   // ValueError
    | ShortBuffer                                             // struct.error
    | BadIndex                                                // IndexError

  type Parsed<+T> = Result<T, ParseError>

  function Uvarint(n: nat): Text
    ensures |Uvarint(n)| > 0
  {
    if n < 128 then [n] else [n % 128 + 128] + Uvarint(n / 128)
  }

  /** Seven bits of every byte, the low ones first. */
  ghost function DigitValue(t: Text): nat {
    if t == [] then 0 else t[0] as int % 128 + 128 * DigitValue(t[1..])
  }

  /** The digits give the number, the high bit is on all bytes but the last, and there is no digit too many. */
  lemma {:induction false} UvarintDigits(n: nat)
    ensures var u := Uvarint(n);
            && DigitValue(u) == n
            && (forall i :: 0 <= i < |u| ==> (u[i] >= 128 <==> i < |u| - 1))
            && (|u| > 1 ==> u[|u| - 1] != 0)
  {
    var u := Uvarint(n);
    if n >= 128 {
      UvarintDigits(n / 128);
      assert u[1..] == Uvarint(n / 128);
      assert u[0] as int % 128 == n % 128;
    } else {
      assert u[1..] == [];
    }
  }

  /** Seven bits a byte, low bits first. */
  method PutUvarint(n: nat) returns (buf: Text)
    ensures buf == Uvarint(n)
  {
    buf := [];
    var x := n;
    while x >= 128
      invariant Uvarint(n) == buf + Uvarint(x)
    {
      buf := buf + [x % 128 + 128];
      x := x / 128;
    }
    buf := buf + [x];
  }

  lemma FirstByte(n: nat, rest: Text)
    ensures (Uvarint(n) + rest)[0] == if n < 128 then n else n % 128 + 128
    ensures (Uvarint(n) + rest)[1..] == if n < 128 then rest else Uvarint(n / 128) + rest
  {
    assert Uvarint(n)[1..] == if n < 128 then [] else Uvarint(n / 128);
  }

  /** No varint is a prefix of another, so what follows one is determined. */
  lemma {:induction false} UvarintSplits(m: nat, n: nat, a: Text, b: Text)
    requires Uvarint(m) + a == Uvarint(n) + b
    ensures m == n && a == b
  {
    FirstByte(m, a);
    FirstByte(n, b);
    if m >= 128 && n >= 128 {
      UvarintSplits(m / 128, n / 128, a, b);
    }
  }

  // ------------------------------------------------------------- decoding

  /** The number starting at `off` and the offset behind it, after `k` bytes of the same number. */
  ghost function Uleb(data: Text, off: nat, k: nat): Parsed<(nat, nat)>
    decreases |data| - off
  {
    if off >= |data| then Bad(TruncatedLeb)
    else if data[off] < 128 then Ok((data[off], off + 1))
    else if k >= 5 then Bad(LongLeb)
    else
      var (high, next) :- Uleb(data, off + 1, k + 1);
      Ok((data[off] - 128 + 128 * high, next))
  }

  /** What the bytes read so far, worth less than `scale`, make of the rest. */
  ghost function Continue(low: nat, scale: nat, rest: Parsed<(nat, nat)>): Parsed<(nat, nat)> {
    var (high, next) :- rest;
    Ok((low + scale * high, next))
  }

  /** The decoding loop.  The bits it ORs in lie above those it already has, so OR is addition. */
  method Uleb128(data: Text, start: nat) returns (r: Parsed<(nat, nat)>)
    ensures r == Uleb(data, start, 0)
  {
    var off: nat, result: nat, scale: nat, shift: nat := start, 0, 1, 0;
    ghost var k := 0;
    while true
      invariant start <= off && shift == 7 * k && k <= 5
      invariant Uleb(data, start, 0) == Continue(result, scale, Uleb(data, off, k))
      decreases 5 - k
    {
      if off >= |data| { return Bad(TruncatedLeb); }
      var b: int := data[off];
      if b < 128 {
        return Ok((result + scale * b, off + 1));
      }
      shift := shift + 7;
      if shift > 35 { return Bad(LongLeb); }
      ghost var rest := Uleb(data, off + 1, k + 1);
      ContinueTwice(result, scale, b - 128, rest);
      result, scale := result + scale * (b - 128), scale * 128;
      off, k := off + 1, k + 1;
    }
  }

  lemma ContinueTwice(low: nat, scale: nat, digit: nat, rest: Parsed<(nat, nat)>)
    ensures Continue(low, scale, Continue(digit, 128, rest)) == Continue(low + scale * digit, scale * 128, rest)
  {
    if rest.Ok? {
      var h := rest.value.0;
      assert scale * (digit + 128 * h) == scale * digit + scale * 128 * h;
    }
  }

  /** `piece` stands in `data` at `off`. */
  ghost predicate Holds(data: Text, off: nat, piece: Text) {
    off + |piece| <= |data| && data[off..off + |piece|] == piece
  }

  lemma HoldsParts(data: Text, off: nat, a: Text, b: Text)
    ensures Holds(data, off, a + b) <==> Holds(data, off, a) && Holds(data, off + |a|, b)
  {
    if off + |a| + |b| <= |data| {
      var both := data[off..off + |a| + |b|];
      assert both[..|a|] == data[off..off + |a|] && both[|a|..] == data[off + |a|..off + |a| + |b|];
      assert both == both[..|a|] + both[|a|..];
      assert (a + b)[..|a|] == a && (a + b)[|a|..] == b;
    }
  }

  /** How much fits in the bytes left after `k`. */
  ghost function Capacity(k: nat): (c: nat)
    ensures c > 0
    decreases 6 - k
  {
    if k >= 6 then 1 else 128 * Capacity(k + 1)
  }

  lemma CapacityIs42Bits()
    ensures Capacity(0) == 0x400_0000_0000
  {
    assert Capacity(5) == 128;
    assert Capacity(4) == 128 * 128;
    assert Capacity(3) == 128 * 0x4000;
    assert Capacity(2) == 128 * 0x20_0000;
  }

  /** Decoding an encoded number gives it back exactly when it has at most 42 bits; a longer one is
      refused rather than misread. */
  lemma {:induction false} DecodeEncoded(data: Text, off: nat, n: nat, k: nat)
    requires Holds(data, off, Uvarint(n)) && k <= 5
    ensures Uleb(data, off, k) == if n < Capacity(k) then Ok((n, off + |Uvarint(n)|)) else Bad(LongLeb)
    decreases 6 - k
  {
    var first: byte := if n < 128 then n else n % 128 + 128;
    var rest := if n < 128 then [] else Uvarint(n / 128);
    assert Uvarint(n) == [first] + rest;
    HoldsParts(data, off, [first], rest);
    assert data[off] == data[off..off + 1][0] == first;
    assert Capacity(k) == 128 * Capacity(k + 1);
    DivisionFits(n, Capacity(k + 1));
    if n < 128 {
      assert Uleb(data, off, k) == Ok((n, off + 1));
    } else if k == 5 {
      assert Capacity(6) == 1;
    } else {
      DecodeEncoded(data, off + 1, n / 128, k + 1);
    }
  }

  lemma DivisionFits(n: nat, c: nat)
    ensures n < 128 * c <==> n / 128 < c
    ensures n == n % 128 + 128 * (n / 128)
  {
  }

  lemma RoundTrip(before: Text, n: nat, after: Text)
    ensures var data := before + Uvarint(n) + after;
            Uleb(data, |before|, 0) == if n < 0x400_0000_0000 then Ok((n, |before| + |Uvarint(n)|)) else Bad(LongLeb)
  {
    var data := before + Uvarint(n) + after;
    assert Holds(data, |before|, Uvarint(n));
    DecodeEncoded(data, |before|, n, 0);
    CapacityIs42Bits();
  }
}

/**
 Bit fields in shared bytes (lib/memio/position.c).  Memory and machine words are
 sequences of bits, least significant first, so byte `n` of a memory is its bits from
 8·n on; a word has 32 bits.
 */
module Position {
  import opened Options
  import opened Powers

  type Bits = seq<bool>

  /** A field: up to four bytes are an integer under a mask, more are plain data. */
  datatype Pos = Pos(offset: nat, length: nat, mask: Bits)

  function And(a: Bits, b: Bits): Bits
    requires |a| == |b|
  {
    seq(|a|, i requires 0 <= i < |a| => a[i] && b[i])
  }

  function Or(a: Bits, b: Bits): Bits
    requires |a| == |b|
  {
    seq(|a|, i requires 0 <= i < |a| => a[i] || b[i])
  }

  function Not(a: Bits): Bits { seq(|a|, i requires 0 <= i < |a| => !a[i]) }

  function ShiftRight(a: Bits, s: nat): Bits { seq(|a|, i requires 0 <= i < |a| => i + s < |a| && a[i + s]) }

  function ShiftLeft(a: Bits, s: nat): Bits { seq(|a|, i requires 0 <= i < |a| => i >= s && a[i - s]) }

  /** The first `n` bits, with zeros for those that are missing: a copy into a cleared buffer. */
  function Fit(a: Bits, n: nat): Bits { seq(n, i requires 0 <= i < n => i < |a| && a[i]) }

  predicate Zero(a: Bits) { forall i :: 0 <= i < |a| ==> !a[i] }

  /** The number that the bits stand for. */
  function Number(a: Bits): nat {
    if a == [] then 0 else (if a[0] then 1 else 0) + 2 * Number(a[1..])
  }

  /** The position of the lowest set bit. */
  function MaskShift(mask: Bits): (s: nat)
    requires !Zero(mask)
    ensures s < |mask| && mask[s] && forall i :: 0 <= i < s ==> !mask[i]
  {
    if mask[0] then 0 else 1 + MaskShift(mask[1..])
  }

  function MaskMax(mask: Bits): Bits
    requires !Zero(mask)
  {
    ShiftRight(mask, MaskShift(mask))
  }

  function MaskRead(mask: Bits, data: Bits): Bits
    requires !Zero(mask) && |mask| == |data|
  {
    ShiftRight(And(data, mask), MaskShift(mask))
  }

  function MaskWrite(mask: Bits, data: Bits, value: Bits): Bits
    requires !Zero(mask) && |mask| == |data| == |value|
  {
    Or(And(data, Not(mask)), And(ShiftLeft(value, MaskShift(mask)), mask))
  }

  /** One above the highest set bit. */
  function Top(a: Bits): (n: nat)
    ensures n <= |a| && (n > 0 ==> a[n - 1]) && forall i :: n <= i < |a| ==> !a[i]
  {
    if a == [] then 0 else if a[|a| - 1] then |a| else Top(a[..|a| - 1])
  }

  lemma TopShifted(a: Bits, s: nat)
    ensures Top(ShiftRight(a, s)) == if Top(a) > s then Top(a) - s else 0
  {
    var b := ShiftRight(a, s);
    if Top(a) > s { assert b[Top(a) - s - 1]; }
    if Top(b) > 0 { assert a[Top(b) - 1 + s]; }
  }

  /** How many bytes the largest value takes. */
  function MaskLength(mask: Bits): (n: nat)
    requires !Zero(mask)
    ensures 1 <= n && 8 * (n - 1) < Top(mask)
    decreases Top(mask)
  {
    var max := MaskMax(mask);
    var v := ShiftRight(max, 8);
    if Zero(v) then 1
    else
      TopShifted(mask, MaskShift(mask));
      TopShifted(max, 8);
      1 + MaskLength(v)
  }

  /** The set bits of a mask are consecutive. */
  ghost predicate Contiguous(mask: Bits) {
    && !Zero(mask)
    && forall i, j, k :: 0 <= i < j < k < |mask| && mask[i] && mask[k] ==> mask[j]
  }

  function Width(mask: Bits): nat
    requires !Zero(mask)
  {
    Top(mask) - MaskShift(mask)
  }

  /** Under a contiguous mask the largest value is a run of ones. */
  lemma MaxOnes(mask: Bits)
    requires Contiguous(mask)
    ensures Width(mask) > 0
    ensures forall i :: 0 <= i < |mask| ==> (mask[i] <==> MaskShift(mask) <= i < Top(mask))
    ensures forall i :: 0 <= i < |mask| ==> (MaskMax(mask)[i] <==> i < Width(mask))
  {
    var s, t := MaskShift(mask), Top(mask);
    forall i | 0 <= i < |mask| ensures mask[i] <==> s <= i < t {
      if s < i < t - 1 { assert mask[s] && mask[t - 1]; }
    }
  }

  lemma {:induction false} NumberAtLeast(a: Bits, i: nat)
    requires i < |a| && a[i]
    ensures Number(a) >= Pow2(i)
  {
    if i > 0 { NumberAtLeast(a[1..], i - 1); }
  }

  /** Bits from `w` on are clear exactly if the number is below 2^w; all ones below make it 2^w - 1. */
  lemma {:induction false} NumberBelow(a: Bits, w: nat)
    requires forall i :: w <= i < |a| ==> !a[i]
    ensures Number(a) < Pow2(w)
    ensures w <= |a| && (forall i :: 0 <= i < w ==> a[i]) ==> Number(a) == Pow2(w) - 1
    decreases |a|
  {
    if a == [] {
      Pow2Grows(0, w);
    } else if w == 0 {
      NumberBelow(a[1..], 0);
    } else {
      NumberBelow(a[1..], w - 1);
    }
  }

  /** The comparison with the largest value tells whether all bits of a value fit under the mask. */
  lemma ValueFits(mask: Bits, value: Bits)
    requires Contiguous(mask) && |value| == |mask|
    ensures Number(value) <= Number(MaskMax(mask)) <==> forall i :: Width(mask) <= i < |value| ==> !value[i]
  {
    MaxOnes(mask);
    var w := Width(mask);
    NumberBelow(MaskMax(mask), w);
    if forall i :: w <= i < |value| ==> !value[i] {
      NumberBelow(value, w);
    } else {
      var i :| w <= i < |value| && value[i];
      NumberAtLeast(value, i);
      Pow2Grows(w, i);
    }
  }

  /** The bytes counted for a contiguous mask hold its largest value. */
  lemma {:induction false} LengthCovers(mask: Bits)
    requires Contiguous(mask)
    ensures Width(mask) <= 8 * MaskLength(mask)
    decreases Top(mask)
  {
    MaxOnes(mask);
    var max := MaskMax(mask);
    var v := ShiftRight(max, 8);
    TopShifted(mask, MaskShift(mask));
    TopShifted(max, 8);
    if !Zero(v) {
      assert v[0];
      assert MaskShift(v) == 0;
      LengthCovers(v);
    }
  }

  /** A value that fits survives a write and a read. */
  lemma MaskWriteRead(mask: Bits, data: Bits, value: Bits)
    requires Contiguous(mask) && |mask| == |data| == |value|
    requires forall i :: Width(mask) <= i < |value| ==> !value[i]
    ensures MaskRead(mask, MaskWrite(mask, data, value)) == value
  {
    MaxOnes(mask);
  }

  /** The bits of a field. */
  function Field(pos: Pos, mem: Bits): Bits
    requires 8 * (pos.offset + pos.length) <= |mem|
  {
    mem[8 * pos.offset..8 * (pos.offset + pos.length)]
  }

  function WithField(pos: Pos, mem: Bits, field: Bits): Bits
    requires 8 * (pos.offset + pos.length) <= |mem| && |field| == 8 * pos.length
  {
    mem[..8 * pos.offset] + field + mem[8 * (pos.offset + pos.length)..]
  }

  /** The layout describes a field of this memory; an integer field needs a mask. */
  predicate Within(pos: Pos, mem: Bits) {
    8 * (pos.offset + pos.length) <= |mem| && (pos.length <= 4 ==> |pos.mask| == 32 && !Zero(pos.mask))
  }

  /** pos_read into a buffer of `length` bytes; none is ENOBUFS. */
  function Read(pos: Pos, mem: Bits, length: nat): Option<Bits>
    requires Within(pos, mem)
  {
    if pos.length <= 4 then
      if length < MaskLength(pos.mask) then None
      else Some(Fit(Fit(MaskRead(pos.mask, Fit(Field(pos, mem), 32)), 8 * MaskLength(pos.mask)), 8 * length))
    else
      if length < pos.length then None
      else Some(Fit(Field(pos, mem), 8 * length))
  }

  /** pos_write of `data`, a number of bytes; none is ENOBUFS. */
  function Write(pos: Pos, mem: Bits, data: Bits): Option<Bits>
    requires Within(pos, mem)
  {
    if pos.length <= 4 then
      if |data| > 32 || Number(Fit(data, 32)) > Number(MaskMax(pos.mask)) then None
      else Some(WithField(pos, mem, MaskWrite(pos.mask, Fit(Field(pos, mem), 32), Fit(data, 32))[..8 * pos.length]))
    else
      if |data| > 8 * pos.length then None
      else Some(WithField(pos, mem, Fit(data, 8 * pos.length)))
  }

  /** What the documentation asks of an integer field: consecutive mask bits within the field. */
  ghost predicate WellFormed(pos: Pos) {
    pos.length <= 4 ==> |pos.mask| == 32 && Contiguous(pos.mask) && Top(pos.mask) <= 8 * pos.length
  }

  lemma FieldWritten(pos: Pos, mem: Bits, field: Bits)
    requires Within(pos, mem) && |field| == 8 * pos.length
    ensures var mem' := WithField(pos, mem, field); Within(pos, mem') && Field(pos, mem') == field && |mem'| == |mem|
  {
  }

  /** Which buffers a read accepts: all that hold the largest value. */
  predicate Roomy(pos: Pos, length: nat)
    requires pos.length <= 4 ==> !Zero(pos.mask)
  {
    if pos.length <= 4 then MaskLength(pos.mask) <= length else pos.length <= length
  }

  /** A read needs that room, and no more. */
  lemma ReadNeedsRoom(pos: Pos, mem: Bits, length: nat)
    requires Within(pos, mem)
    ensures Read(pos, mem, length).Some? <==> Roomy(pos, length)
  {
  }

  /**
   A write succeeds exactly if the field has room for the value, and a read then gives
   the value back, padded with zeros to the size of the buffer; nothing of it is cut off.
   */
  lemma WriteThenRead(pos: Pos, mem: Bits, data: Bits, length: nat)
    requires WellFormed(pos) && Within(pos, mem)
    ensures Write(pos, mem, data).Some? <==>
              if pos.length <= 4 then |data| <= 32 && forall i :: Width(pos.mask) <= i < |data| ==> !data[i]
              else |data| <= 8 * pos.length
    ensures Write(pos, mem, data).Some? && Roomy(pos, length) ==>
              && Within(pos, Write(pos, mem, data).value)
              && Read(pos, Write(pos, mem, data).value, length) == Some(Fit(data, 8 * length))
              && (forall i :: 8 * length <= i < |data| ==> !data[i])
  {
    if pos.length <= 4 {
      IntegerAccepted(pos, mem, data);
      if Write(pos, mem, data).Some? { IntegerWritten(pos, mem, data, length); }
    } else if |data| <= 8 * pos.length {
      FieldWritten(pos, mem, Fit(data, 8 * pos.length));
      if pos.length <= length { assert Fit(Fit(data, 8 * pos.length), 8 * length) == Fit(data, 8 * length); }
    }
  }

  lemma FitClear(data: Bits, w: nat, n: nat)
    requires |data| <= n
    ensures (forall i :: w <= i < n ==> !Fit(data, n)[i]) <==> (forall i :: w <= i < |data| ==> !data[i])
  {
    var value := Fit(data, n);
    if forall i :: w <= i < n ==> !value[i] {
      forall i | w <= i < |data| ensures !data[i] { assert !value[i]; }
    }
  }

  lemma IntegerAccepted(pos: Pos, mem: Bits, data: Bits)
    requires WellFormed(pos) && Within(pos, mem) && pos.length <= 4
    ensures Write(pos, mem, data).Some? <==> |data| <= 32 && forall i :: Width(pos.mask) <= i < |data| ==> !data[i]
  {
    ValueFits(pos.mask, Fit(data, 32));
    if |data| <= 32 { FitClear(data, Width(pos.mask), 32); }
  }

  lemma IntegerWritten(pos: Pos, mem: Bits, data: Bits, length: nat)
    requires WellFormed(pos) && Within(pos, mem) && pos.length <= 4
    requires |data| <= 32 && forall i :: Width(pos.mask) <= i < |data| ==> !data[i]
    ensures Write(pos, mem, data).Some? && MaskLength(pos.mask) <= length ==>
              && Within(pos, Write(pos, mem, data).value)
              && Read(pos, Write(pos, mem, data).value, length) == Some(Fit(data, 8 * length))
              && (forall i :: 8 * length <= i < |data| ==> !data[i])
  {
    var mask, value, raw := pos.mask, Fit(data, 32), Fit(Field(pos, mem), 32);
    FitClear(data, Width(mask), 32);
    if Write(pos, mem, data).Some? && MaskLength(mask) <= length {
      var raw' := MaskWrite(mask, raw, value);
      MaskWriteRead(mask, raw, value);
      LengthCovers(mask);
      FieldWritten(pos, mem, raw'[..8 * pos.length]);
      RestLost(mask, raw', pos.length);
      FitAgain(data, Width(mask), 8 * MaskLength(mask), 8 * length);
    }
  }

  /** Copies that are wide enough lose nothing. */
  lemma FitAgain(data: Bits, w: nat, m: nat, n: nat)
    requires |data| <= 32 && w <= m <= n && forall i :: w <= i < |data| ==> !data[i]
    ensures Fit(Fit(Fit(data, 32), m), n) == Fit(data, n)
    ensures forall i :: n <= i < |data| ==> !data[i]
  {
  }

  /** Bits of a word beyond the field do not matter, because the mask has none there. */
  lemma RestLost(mask: Bits, raw: Bits, length: nat)
    requires Contiguous(mask) && |mask| == |raw| == 32 && length <= 4 && Top(mask) <= 8 * length
    ensures MaskRead(mask, Fit(raw[..8 * length], 32)) == MaskRead(mask, raw)
  {
    assert And(Fit(raw[..8 * length], 32), mask) == And(raw, mask);
  }

  /** The bit `b` of the memory belongs to the field. */
  predicate Owns(pos: Pos, b: nat) {
    && 8 * pos.offset <= b < 8 * (pos.offset + pos.length)
    && (pos.length <= 4 ==> b - 8 * pos.offset < |pos.mask| && pos.mask[b - 8 * pos.offset])
  }

  /** A write changes no bit that does not belong to its field. */
  lemma WriteKeepsOthers(pos: Pos, mem: Bits, data: Bits, b: nat)
    requires Within(pos, mem) && Write(pos, mem, data).Some? && b < |mem| && !Owns(pos, b)
    ensures |Write(pos, mem, data).value| == |mem| && Write(pos, mem, data).value[b] == mem[b]
  {
    var i := b - 8 * pos.offset;
    if 0 <= i < 8 * pos.length {
      assert Field(pos, mem)[i] == mem[b];
      assert Write(pos, mem, data).value[b] == MaskWrite(pos.mask, Fit(Field(pos, mem), 32), Fit(data, 32))[i];
    }
  }

  /** The bits of the field are those of the value, from its lowest one on, and zeros after them. */
  lemma WritePlaces(pos: Pos, mem: Bits, data: Bits, b: nat)
    requires Within(pos, mem) && Write(pos, mem, data).Some? && Owns(pos, b)
    ensures var n := b - 8 * pos.offset - if pos.length <= 4 then MaskShift(pos.mask) else 0;
            && 0 <= n && b < |mem| == |Write(pos, mem, data).value|
            && Write(pos, mem, data).value[b] == (n < |data| && data[n])
  {
    var i := b - 8 * pos.offset;
    if pos.length <= 4 {
      assert Write(pos, mem, data).value[b] == MaskWrite(pos.mask, Fit(Field(pos, mem), 32), Fit(data, 32))[i];
    }
  }

  /** A read depends on no bit that does not belong to its field. */
  lemma ReadSeesOwn(pos: Pos, mem: Bits, mem': Bits, length: nat)
    requires Within(pos, mem) && |mem'| == |mem| && forall b :: 0 <= b < |mem| && Owns(pos, b) ==> mem'[b] == mem[b]
    ensures Within(pos, mem') && Read(pos, mem', length) == Read(pos, mem, length)
  {
    var f, f' := Field(pos, mem), Field(pos, mem');
    if pos.length <= 4 {
      var a, a' := And(Fit(f, 32), pos.mask), And(Fit(f', 32), pos.mask);
      forall i | 0 <= i < 32 ensures a[i] == a'[i] {
        if i < |f| && pos.mask[i] { assert Owns(pos, 8 * pos.offset + i); }
      }
      assert a == a';
    } else {
      forall i | 0 <= i < |f| ensures f[i] == f'[i] { assert Owns(pos, 8 * pos.offset + i); }
      assert f == f';
    }
  }

  /** Writing a field leaves every field with other bits as it was, even when the two share bytes. */
  lemma DisjointFields(p: Pos, q: Pos, mem: Bits, data: Bits, length: nat)
    requires Within(p, mem) && Within(q, mem) && Write(p, mem, data).Some?
    requires forall b :: !(Owns(p, b) && Owns(q, b))
    ensures var mem' := Write(p, mem, data).value; Within(q, mem') && Read(q, mem', length) == Read(q, mem, length)
  {
    var mem' := Write(p, mem, data).value;
    if |mem| > 0 {
      forall b | 0 <= b < |mem| && !Owns(p, b) ensures |mem'| == |mem| && mem'[b] == mem[b] {
        WriteKeepsOthers(p, mem, data, b);
      }
    }
    FieldSize(p, mem, data);
    ReadSeesOwn(q, mem, mem', length);
  }

  lemma FieldSize(pos: Pos, mem: Bits, data: Bits)
    requires Within(pos, mem) && Write(pos, mem, data).Some?
    ensures |Write(pos, mem, data).value| == |mem|
  {
  }

  /** memcpy of some bits to a place in a buffer. */
  method Copy(buffer: array<bool>, at: nat, bits: Bits)
    requires at + |bits| <= buffer.Length
    modifies buffer
    ensures buffer[..] == old(buffer[..at]) + bits + old(buffer[at + |bits|..])
  {
    for i := 0 to |bits|
      invariant buffer[..at + i] == old(buffer[..at]) + bits[..i]
      invariant buffer[at + i..] == old(buffer[at + i..])
    {
      buffer[at + i] := bits[i];
      assert bits[..i + 1] == bits[..i] + [bits[i]];
      assert buffer[..at + i + 1] == buffer[..at + i] + [bits[i]];
    }
    assert bits[..|bits|] == bits;
    assert buffer[..] == buffer[..at + |bits|] + buffer[at + |bits|..];
  }

  /** pos_write. */
  method PosWrite(pos: Pos, base: array<bool>, data: Bits) returns (ok: bool)
    requires Within(pos, base[..])
    modifies base
    ensures ok == Write(pos, old(base[..]), data).Some?
    ensures base[..] == if ok then Write(pos, old(base[..]), data).value else old(base[..])
  {
    var field := base[8 * pos.offset..8 * (pos.offset + pos.length)];
    if pos.length <= 4 {
      if |data| > 32 { return false; }
      var value := Fit(data, 32);
      if Number(value) > Number(MaskMax(pos.mask)) { return false; }
      var raw := MaskWrite(pos.mask, Fit(field, 32), value);
      Copy(base, 8 * pos.offset, raw[..8 * pos.length]);
    } else {
      if |data| > 8 * pos.length { return false; }
      Copy(base, 8 * pos.offset, Fit(data, 8 * pos.length));
    }
    ok := true;
  }

  /** pos_read into the buffer `data`. */
  method PosRead(pos: Pos, base: array<bool>, data: array<bool>, length: nat) returns (ok: bool)
    requires Within(pos, base[..]) && data.Length == 8 * length && data != base
    modifies data
    ensures ok == Read(pos, base[..], length).Some?
    ensures data[..] == if ok then Read(pos, base[..], length).value else old(data[..])
  {
    var field := base[8 * pos.offset..8 * (pos.offset + pos.length)];
    if pos.length <= 4 {
      if length < MaskLength(pos.mask) { return false; }
      var value := MaskRead(pos.mask, Fit(field, 32));
      Copy(data, 0, Fit(Fit(value, 8 * MaskLength(pos.mask)), 8 * length));
    } else {
      if length < pos.length { return false; }
      Copy(data, 0, Fit(field, 8 * length));
    }
    ok := true;
  }
}

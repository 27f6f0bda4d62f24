/**
 BaseQN bit packing: codes of N bits are ORed into row-major bytes (benchmarks/cases/base_q.cpp) and read back by
 the kernels (kernels/quantization/base_q_ref.cpp). Bytes and words are natural numbers; a row of bytes denotes
 one little-endian number.
 */
module BaseQ {
  import opened Arith
  import opened Bits
  import opened Reals
  import opened Rows
  import opened Sums

  // ---------- more about shifts ----------

  function BitOr(a: nat, b: nat): nat
    decreases a + b
  {
    if a == 0 then b
    else if b == 0 then a
    else 2 * BitOr(a / 2, b / 2) + (if a % 2 == 1 || b % 2 == 1 then 1 else 0)
  }

  /** ORing a shifted number into bits that are all below it is addition. */
  lemma {:induction false} OrAdds(a: nat, c: nat, s: nat)
    requires a < Shl(1, s)
    ensures BitOr(a, Shl(c, s)) == a + Shl(c, s)
    decreases s
  {
    if s > 0 && a > 0 && Shl(c, s) > 0 {
      OrAdds(a / 2, c, s - 1);
    }
  }

  lemma {:induction false} LowShl(c: nat, s: nat, n: nat)
    requires s <= n
    ensures Low(Shl(c, s), n) == Shl(Low(c, n - s), s)
    decreases s
  {
    if s > 0 {
      LowShl(c, s - 1, n - 1);
    }
  }

  lemma LowAll(a: nat, n: nat)
    requires a < Shl(1, n)
    ensures Low(a, n) == a && Shr(a, n) == 0
  {
    ShlZero(n);
    SplitUnique(a, n, 0, a);
  }

  lemma {:induction false} ShlMono(a: nat, m: nat, n: nat)
    requires m <= n
    ensures Shl(a, m) <= Shl(a, n)
    decreases n
  {
    if m < n {
      ShlMono(a, m, n - 1);
    }
  }

  /** A code of `bits` bits, shifted, still fits the bits it is given. */
  lemma ShlFits(c: nat, bits: nat, s: nat)
    requires c < Shl(1, bits)
    ensures Shl(c, s) < Shl(1, bits + s)
  {
    ShlGap(c, Shl(1, bits), s);
    ShlShl(1, bits, s);
  }

  lemma {:induction false} ShrShr(a: nat, m: nat, n: nat)
    ensures Shr(Shr(a, m), n) == Shr(a, m + n)
    decreases m
  {
    if m > 0 {
      ShrShr(a / 2, m - 1, n);
    }
  }

  /** Bits from position m on do not reach a window that ends before m. */
  lemma {:induction false} WindowIgnoresHigh(x: nat, high: nat, m: nat, s: nat, n: nat)
    requires s + n <= m
    ensures Low(Shr(x + Shl(high, m), s), n) == Low(Shr(x, s), n)
    decreases s, n
  {
    if s > 0 {
      assert (x + Shl(high, m)) / 2 == x / 2 + Shl(high, m - 1);
      WindowIgnoresHigh(x / 2, high, m - 1, s - 1, n);
    } else if n > 0 {
      assert (x + Shl(high, m)) / 2 == x / 2 + Shl(high, m - 1) && (x + Shl(high, m)) % 2 == x % 2;
      WindowIgnoresHigh(x / 2, high, m - 1, 0, n - 1);
    }
  }

  // ---------- rows of bytes and rows of codes ----------

  predicate Bytes(s: seq<nat>) {
    forall i | 0 <= i < |s| :: s[i] < 256
  }

  /** The bytes of a row read as one little-endian number. */
  function Little(s: seq<nat>): nat {
    if s == [] then 0 else s[0] + Shl(Little(s[1..]), 8)
  }

  lemma {:induction false} LittleConcat(a: seq<nat>, b: seq<nat>)
    ensures Little(a + b) == Little(a) + Shl(Little(b), 8 * |a|)
  {
    if a == [] {
      assert a + b == b;
    } else {
      assert (a + b)[1..] == a[1..] + b;
      LittleConcat(a[1..], b);
      ShlAdd(Little(a[1..]), Shl(Little(b), 8 * |a[1..]|), 8);
      ShlShl(Little(b), 8 * |a[1..]|, 8);
    }
  }

  lemma {:induction false} LittleZero(s: seq<nat>)
    ensures Little(s) == 0 <==> forall i | 0 <= i < |s| :: s[i] == 0
  {
    if s != [] {
      LittleZero(s[1..]);
      ShlPositive(Little(s[1..]), 8);
      ShlZero(8);
      assert forall i | 0 < i < |s| :: s[i] == s[1..][i - 1];
    }
  }

  predicate Codes(codes: seq<nat>, bits: nat) {
    forall i | 0 <= i < |codes| :: codes[i] < Shl(1, bits)
  }

  /** The sum of code_c * 2^(c * bits). */
  function Packed(codes: seq<nat>, bits: nat): nat {
    if codes == [] then 0
    else
      var n := |codes| - 1;
      Packed(codes[..n], bits) + Shl(codes[n], Flat(n, bits, 0))
  }

  lemma {:induction false} PackedBound(codes: seq<nat>, bits: nat)
    requires Codes(codes, bits)
    ensures Packed(codes, bits) < Shl(1, Flat(|codes|, bits, 0))
  {
    if codes != [] {
      var n := |codes| - 1;
      PackedBound(codes[..n], bits);
      ShlGap(codes[n], Shl(1, bits), Flat(n, bits, 0));
      ShlShl(1, bits, Flat(n, bits, 0));
    }
  }

  /** Dropping the columns from c + 1 on leaves the number modulo a power of two. */
  lemma {:induction false} PackedPrefix(codes: seq<nat>, bits: nat, c: nat) returns (rest: nat)
    requires c <= |codes|
    ensures Packed(codes, bits) == Packed(codes[..c], bits) + Shl(rest, Flat(c, bits, 0))
    decreases |codes| - c
  {
    if c == |codes| {
      assert codes[..c] == codes;
      ShlZero(Flat(c, bits, 0));
      rest := 0;
    } else {
      assert codes[..c + 1][..c] == codes[..c];
      var next := PackedPrefix(codes, bits, c + 1);
      ShlShl(next, bits, Flat(c, bits, 0));
      ShlAdd(codes[c], Shl(next, bits), Flat(c, bits, 0));
      rest := codes[c] + Shl(next, bits);
    }
  }

  lemma PackedAt(codes: seq<nat>, bits: nat, c: nat) returns (rest: nat)
    requires c < |codes|
    ensures Packed(codes, bits) == Packed(codes[..c], bits) + Shl(codes[c] + Shl(rest, bits), Flat(c, bits, 0))
  {
    assert codes[..c + 1][..c] == codes[..c];
    rest := PackedPrefix(codes, bits, c + 1);
    ShlShl(rest, bits, Flat(c, bits, 0));
    ShlAdd(codes[c], Shl(rest, bits), Flat(c, bits, 0));
  }

  /** Reading `bits` bits at column c * bits returns code c. */
  lemma Extract(codes: seq<nat>, bits: nat, c: nat)
    requires Codes(codes, bits) && c < |codes|
    ensures Low(Shr(Packed(codes, bits), Flat(c, bits, 0)), bits) == codes[c]
  {
    hide Shl, Shr, Low, Packed, Flat;
    var rest := PackedAt(codes, bits, c);
    PackedBound(codes[..c], bits);
    SplitUnique(Packed(codes, bits), Flat(c, bits, 0), codes[c] + Shl(rest, bits), Packed(codes[..c], bits));
    SplitUnique(codes[c] + Shl(rest, bits), bits, rest, codes[c]);
  }

  // ---------- inserting one code ----------

  /** Where a code of a row goes: its byte, its shift inside the byte, and what is above it. */
  lemma RowBelow(row: seq<nat>, byte: nat, shift: nat)
    requires byte < |row| && shift < 8 && Little(row) < Shl(1, shift + 8 * byte)
    ensures row[byte] < Shl(1, shift) && Little(row[byte + 1..]) == 0
    ensures Little(row) == Little(row[..byte]) + Shl(row[byte], 8 * byte)
  {
    var above := Little(row[byte + 1..]);
    assert row == row[..byte] + row[byte..] && row[byte..][1..] == row[byte + 1..];
    LittleConcat(row[..byte], row[byte..]);
    ShlShl(1, shift, 8 * byte);
    var part := row[byte] + Shl(above, 8);
    assert Little(row[byte..]) == part;
    if part >= Shl(1, shift) {
      ShlAdd(Shl(1, shift), part - Shl(1, shift), 8 * byte);
      assert false;
    }
    ShlMono(1, shift, 8);
    if above > 0 {
      ShlAdd(1, above - 1, 8);
      assert false;
    }
    ShlZero(8);
  }

  /** The row after the word is ORed into it. */
  lemma RowAfter(row: seq<nat>, row': seq<nat>, byte: nat, shift: nat, word: nat)
    requires byte < |row| && shift < 8 && Little(row) < Shl(1, shift + 8 * byte)
    requires |row'| == |row| && row'[..byte] == row[..byte]
    requires row'[byte] == row[byte] + Low(word, 8) && Little(row'[byte + 1..]) == Shr(word, 8)
    ensures Little(row') == Little(row) + Shl(word, 8 * byte)
  {
    hide Shl, Shr, Low;
    RowBelow(row, byte, shift);
    assert row' == row'[..byte] + row'[byte..] && row'[byte..][1..] == row'[byte + 1..];
    LittleConcat(row'[..byte], row'[byte..]);
    assert Little(row'[byte..]) == row'[byte] + Shl(Little(row'[byte + 1..]), 8);
    hide Little;
    Split(word, 8);
    ShlAdd(row[byte], word, 8 * byte);
  }

  /** The bytes above the first one, with or without a spill. */
  lemma Spilled(above: seq<nat>, above': seq<nat>, spill: nat)
    requires Little(above) == 0 && |above'| == |above|
    requires if above == [] then spill == 0 else above' == above[0 := spill]
    ensures Little(above') == spill
  {
    LittleZero(above);
    if above != [] {
      LittleZero(above[1..]);
      ShlZero(8);
      assert above'[1..] == above[1..];
    }
  }

  lemma WordParts(code: nat, bits: nat, shift: nat)
    requires code < Shl(1, bits) && bits <= 8 && shift < 8
    ensures Low(Shl(code, shift), 16) == Shl(code, shift)
    ensures Low(Shr(Shl(code, shift), 8), 8) == Shr(Shl(code, shift), 8) < 256
    ensures shift + bits <= 8 ==> Shr(Shl(code, shift), 8) == 0
    ensures Low(Shl(code, shift), 8) == Shl(Low(code, 8 - shift), shift)
    ensures Low(Shl(code, shift), 8) < 256
  {
    var word := Shl(code, shift);
    ShlFits(code, bits, shift);
    ShlMono(1, bits + shift, 16);
    LowAll(word, 16);
    LowShl(code, shift, 8);
    Split(word, 8);
    assert Shl(1, 8) == 256;
    if shift + bits <= 8 {
      ShlMono(1, bits + shift, 8);
      LowAll(word, 8);
    }
    ShlShl(1, 8, 8);
    if Shr(word, 8) >= 256 {
      ShlAdd(256, Shr(word, 8) - 256, 8);
      assert false;
    }
    LowAll(Shr(word, 8), 8);
  }

  /** The state between two inserts: nothing is set at or above the next column. */
  predicate Open(row: seq<nat>, column: nat, bits: nat) {
    Little(row) < Shl(1, Flat(column, bits, 0))
  }

  // ---------- the index of a bit ----------

  /** static_cast<int> of a 64-bit index: its low 32 bits, read as signed. */
  function ToInt(x: nat): int {
    if x % 0x1_0000_0000 < 0x8000_0000 then x % 0x1_0000_0000 else x % 0x1_0000_0000 - 0x1_0000_0000
  }

  /** A cast index finds its byte exactly below 2^31. */
  lemma CastFindsByte(x: nat)
    ensures ToInt(x) == x <==> x < 0x8000_0000
    ensures ToInt(x) / 8 == x / 8 <==> x < 0x8000_0000
    ensures 0x8000_0000 <= x < 0x1_0000_0000 ==> ToInt(x) / 8 < 0
  {
    if x >= 0x8000_0000 {
      assert ToInt(x) < 0x8000_0000 && ToInt(x) / 8 < 0x1000_0000 <= x / 8;
    }
  }

  /** What a row of k columns needs, and what neither validate_view nor the packing loops check. */
  predicate IntIndexed(k: nat, bits: nat) {
    k == 0 || (k - 1) * bits < 0x8000_0000
  }

  /** Every column of a row is looked for at its own byte exactly when the last one is. */
  lemma RowFitsInt(k: nat, bits: nat)
    ensures (forall column: nat | column < k :: ToInt(column * bits) / 8 == column * bits / 8) <==> IntIndexed(k, bits)
  {
    if IntIndexed(k, bits) {
      forall column: nat | column < k ensures ToInt(column * bits) / 8 == column * bits / 8 {
        ColumnFitsInt(k, bits, column);
      }
    } else {
      CastFindsByte((k - 1) * bits);
    }
  }

  lemma ColumnFitsInt(k: nat, bits: nat, column: nat)
    requires IntIndexed(k, bits) && column < k
    ensures column * bits < 0x8000_0000 && ToInt(column * bits) == column * bits
  {
    MulMono(column, k - 1, bits);
    CastFindsByte(column * bits);
  }

  /** insert_code: the row's number grows by code * 2^(column * bits); the spill stays inside the row. */
  method InsertCode(bytes: array<nat>, rowOffset: nat, column: nat, bits: nat, code: nat, ghost rowBytes: nat)
    requires 1 <= bits <= 8 && code < Shl(1, bits)
    requires Flat(column + 1, bits, 0) <= 8 * rowBytes && column * bits < 0x8000_0000
    requires rowOffset + rowBytes <= bytes.Length && Bytes(bytes[..])
    requires Open(Stretch(bytes[..], rowOffset, rowBytes), column, bits)
    modifies bytes
    ensures Little(Stretch(bytes[..], rowOffset, rowBytes))
         == Little(Stretch(old(bytes[..]), rowOffset, rowBytes)) + Shl(code, Flat(column, bits, 0))
    ensures bytes[..rowOffset] == old(bytes[..rowOffset])
    ensures bytes[rowOffset + rowBytes..] == old(bytes[rowOffset + rowBytes..])
    ensures Bytes(bytes[..])
  {
    CastFindsByte(column * bits);
    FlatProduct(column, bits, 0);
    NextColumn(column, bits);
    var bit := ToInt(column * bits);
    hide *;
    InsertBits(bytes, rowOffset, bit, bits, code, rowBytes);
  }

  /** The two bytes that a code at a given bit touches. */
  method InsertBits(bytes: array<nat>, rowOffset: nat, bit: nat, bits: nat, code: nat, ghost rowBytes: nat)
    requires 1 <= bits <= 8 && code < Shl(1, bits) && bit + bits <= 8 * rowBytes
    requires rowOffset + rowBytes <= bytes.Length && Bytes(bytes[..])
    requires Little(Stretch(bytes[..], rowOffset, rowBytes)) < Shl(1, bit)
    modifies bytes
    ensures Little(Stretch(bytes[..], rowOffset, rowBytes)) == Little(Stretch(old(bytes[..]), rowOffset, rowBytes)) + Shl(code, bit)
    ensures bytes[..rowOffset] == old(bytes[..rowOffset])
    ensures bytes[rowOffset + rowBytes..] == old(bytes[rowOffset + rowBytes..])
    ensures Bytes(bytes[..])
  {
    hide Shl, Shr, Low, BitOr, Little;
    var byte, shift := rowOffset + bit / 8, bit % 8;
    var word := Low(Shl(code, shift), 16);
    ghost var row, at := Stretch(bytes[..], rowOffset, rowBytes), bit / 8;
    WordParts(code, bits, shift);
    RowBelow(row, at, shift);
    OrAdds(row[at], Low(code, 8 - shift), shift);
    ByteSum(row[at], code, shift);
    bytes[byte] := BitOr(bytes[byte], Low(word, 8));
    LittleZero(row[at + 1..]);
    if shift + bits > 8 {
      assert row[at + 1..][0] == bytes[byte + 1];
      OrZero(Low(Shr(word, 8), 8));
      bytes[byte + 1] := BitOr(bytes[byte + 1], Low(Shr(word, 8), 8));
    }
    ghost var row' := Stretch(bytes[..], rowOffset, rowBytes);
    SpilledRow(row, row', at, Shr(word, 8), shift + bits > 8);
    RowAfter(row, row', at, shift, word);
    ShlShl(code, shift, 8 * at);
  }

  lemma NextColumn(column: nat, bits: nat)
    ensures Flat(column + 1, bits, 0) == Flat(column, bits, 0) + bits
  {
  }

  lemma OrZero(x: nat)
    ensures BitOr(0, x) == x
  {
  }

  /** The old low bits and the new high bits of a byte do not overflow it. */
  lemma ByteSum(b: nat, code: nat, shift: nat)
    requires b < Shl(1, shift) && shift < 8
    ensures b + Shl(Low(code, 8 - shift), shift) < 256
  {
    var high := Low(code, 8 - shift);
    Split(code, 8 - shift);
    ShlAdd(high, 1, shift);
    if high + 1 < Shl(1, 8 - shift) {
      ShlGap(high + 1, Shl(1, 8 - shift), shift);
    }
    ShlShl(1, 8 - shift, shift);
    assert Shl(1, 8) == 256;
  }

  lemma SpilledRow(row: seq<nat>, row': seq<nat>, at: nat, spill: nat, spills: bool)
    requires at < |row| == |row'| && Little(row[at + 1..]) == 0
    requires spills ==> at + 1 < |row|
    requires !spills ==> spill == 0
    requires forall i | 0 <= i < |row| && i != at && (i != at + 1 || !spills) :: row'[i] == row[i]
    requires spills ==> row'[at + 1] == spill
    ensures row'[..at] == row[..at] && Little(row'[at + 1..]) == spill
  {
    var above, above' := row[at + 1..], row'[at + 1..];
    LittleZero(above);
    if spills {
      assert above' == above[0 := spill];
      Spilled(above, above', spill);
    } else {
      assert above' == above;
    }
  }

  // ---------- packing a matrix ----------

  /** The first `count` codes of matrix row r are packed into its row of bytes. */
  ghost predicate RowHolds(bytes: seq<nat>, rowBytes: nat, codes: seq<nat>, k: nat, bits: nat, r: nat, count: nat)
    requires count <= k
  {
    && Flat(r, rowBytes, 0) + rowBytes <= |bytes| && Flat(r, k, 0) + k <= |codes|
    && Little(Stretch(bytes, Flat(r, rowBytes, 0), rowBytes)) == Packed(Stretch(codes, Flat(r, k, 0), k)[..count], bits)
  }

  /** Rows before `row` are packed, `row` up to `column`, and later rows are still zero. */
  ghost predicate Packing(bytes: seq<nat>, rowBytes: nat, codes: seq<nat>, n: nat, k: nat, bits: nat, row: nat, column: nat)
    requires column <= k
  {
    && |bytes| == Flat(n, rowBytes, 0) && |codes| == Flat(n, k, 0) && Bytes(bytes) && Codes(codes, bits)
    && forall r: nat | r < n :: RowAt(bytes, rowBytes, codes, k, bits, row, column, r)
  }

  ghost predicate RowAt(bytes: seq<nat>, rowBytes: nat, codes: seq<nat>, k: nat, bits: nat, row: nat, column: nat, r: nat)
    requires column <= k
  {
    RowHolds(bytes, rowBytes, codes, k, bits, r, if r < row then k else if r == row then column else 0)
  }

  lemma ZeroPacking(bytes: seq<nat>, rowBytes: nat, codes: seq<nat>, n: nat, k: nat, bits: nat)
    requires |bytes| == Flat(n, rowBytes, 0) && |codes| == Flat(n, k, 0) && Codes(codes, bits)
    requires forall i | 0 <= i < |bytes| :: bytes[i] == 0
    ensures Packing(bytes, rowBytes, codes, n, k, bits, 0, 0)
  {
    forall r: nat | r < n ensures RowAt(bytes, rowBytes, codes, k, bits, 0, 0, r) {
      RowInside(r, n, rowBytes);
      RowInside(r, n, k);
      LittleZero(Stretch(bytes, Flat(r, rowBytes, 0), rowBytes));
    }
  }

  lemma PackingStep(before: seq<nat>, after: seq<nat>, rowBytes: nat, codes: seq<nat>, n: nat, k: nat, bits: nat,
                    row: nat, column: nat)
    requires row < n && column < k && Packing(before, rowBytes, codes, n, k, bits, row, column)
    requires Framed(before, after, Flat(row, rowBytes, 0), rowBytes) && Bytes(after)
    requires Flat(row, k, 0) + k <= |codes|
    requires Little(Stretch(after, Flat(row, rowBytes, 0), rowBytes))
          == Little(Stretch(before, Flat(row, rowBytes, 0), rowBytes))
             + Shl(Stretch(codes, Flat(row, k, 0), k)[column], Flat(column, bits, 0))
    ensures Packing(after, rowBytes, codes, n, k, bits, row, column + 1)
  {
    hide Little, Shl, Flat;
    var next := column + 1;
    forall r: nat | r < n ensures RowAt(after, rowBytes, codes, k, bits, row, next, r) {
      assert RowAt(before, rowBytes, codes, k, bits, row, column, r);
      if r == row {
        var source := Stretch(codes, Flat(row, k, 0), k);
        assert source[..next][..column] == source[..column];
      } else {
        RowInside(r, n, rowBytes);
        OtherRowKept(before, after, row, rowBytes, r);
      }
    }
  }

  lemma NextRow(bytes: seq<nat>, rowBytes: nat, codes: seq<nat>, n: nat, k: nat, bits: nat, row: nat)
    requires row < n && Packing(bytes, rowBytes, codes, n, k, bits, row, k)
    ensures Packing(bytes, rowBytes, codes, n, k, bits, row + 1, 0)
  {
    hide Little, Packed;
    var next := row + 1;
    forall r: nat | r < n ensures RowAt(bytes, rowBytes, codes, k, bits, next, 0, r) {
      assert RowAt(bytes, rowBytes, codes, k, bits, row, k, r);
    }
  }

  /** One insert of the packing loop. */
  method PackCode(bytes: array<nat>, codes: seq<nat>, ghost n: nat, k: nat, bits: nat, rowBytes: nat, row: nat,
                  column: nat)
    requires 1 <= bits <= 8 && row < n && column < k
    requires k * bits % 8 == 0 && rowBytes == k * bits / 8 && IntIndexed(k, bits)
    requires Packing(bytes[..], rowBytes, codes, n, k, bits, row, column)
    modifies bytes
    ensures Packing(bytes[..], rowBytes, codes, n, k, bits, row, column + 1)
  {
    ghost var before := bytes[..];
    PackPlace(before, codes, n, k, bits, rowBytes, row, column);
    hide *;
    var at := RowMajor(row, rowBytes, 0);
    InsertCode(bytes, at, column, bits, codes[RowMajor(row, k, column)], rowBytes);
    InsertFrames(before, bytes[..], at, rowBytes);
    PackingStep(before, bytes[..], rowBytes, codes, n, k, bits, row, column);
  }

  /** Where the next code comes from and where it goes. */
  lemma PackPlace(bytes: seq<nat>, codes: seq<nat>, n: nat, k: nat, bits: nat, rowBytes: nat, row: nat, column: nat)
    requires bits <= 8 && row < n && column < k && IntIndexed(k, bits)
    requires k * bits % 8 == 0 && rowBytes == k * bits / 8
    requires Packing(bytes, rowBytes, codes, n, k, bits, row, column)
    ensures var at := Flat(row, rowBytes, 0);
      && at + rowBytes <= |bytes| && Bytes(bytes) && Open(Stretch(bytes, at, rowBytes), column, bits)
      && Flat(column + 1, bits, 0) <= 8 * rowBytes && column * bits < 0x8000_0000
      && Flat(row, k, 0) + k <= |codes| && Flat(row, k, column) < |codes|
      && codes[Flat(row, k, column)] == Stretch(codes, Flat(row, k, 0), k)[column] < Shl(1, bits)
  {
    ColumnFitsInt(k, bits, column);
    FlatProduct(k, bits, 0);
    hide *;
    FlatOrderColumns(column, k, bits);
    RowInside(row, n, rowBytes);
    RowInside(row, n, k);
    FlatShift(row, k, 0, column);
    NextCodeFits(bytes, rowBytes, codes, n, k, bits, row, column);
  }

  lemma NextCodeFits(bytes: seq<nat>, rowBytes: nat, codes: seq<nat>, n: nat, k: nat, bits: nat, row: nat, column: nat)
    requires row < n && column < k && Packing(bytes, rowBytes, codes, n, k, bits, row, column)
    requires Flat(row, rowBytes, 0) + rowBytes <= |bytes|
    requires Flat(row, k, 0) + k <= |codes| && Flat(row, k, column) == Flat(row, k, 0) + column
    ensures Bytes(bytes) && Open(Stretch(bytes, Flat(row, rowBytes, 0), rowBytes), column, bits)
    ensures codes[Flat(row, k, column)] == Stretch(codes, Flat(row, k, 0), k)[column] < Shl(1, bits)
  {
    hide Little, Shl, Packed, Flat;
    assert RowAt(bytes, rowBytes, codes, k, bits, row, column, row);
    PackedBound(Stretch(codes, Flat(row, k, 0), k)[..column], bits);
  }

  lemma InsertFrames(before: seq<nat>, after: seq<nat>, at: nat, n: nat)
    requires |after| == |before| && at + n <= |before|
    requires after[..at] == before[..at] && after[at + n..] == before[at + n..]
    ensures Framed(before, after, at, n)
  {
  }

  lemma FlatOrderColumns(column: nat, k: nat, bits: nat)
    requires column < k
    ensures Flat(column + 1, bits, 0) <= Flat(k, bits, 0)
  {
    RowInside(column, k, bits);
    NextColumn(column, bits);
  }

  // ---------- scales ----------

  /** One scale, and for affine codes one bias, for every group of a row. */
  datatype View = View(codes: seq<nat>, scales: seq<real>, biases: seq<real>, rows: nat, columns: nat, bits: nat,
                       groupSize: nat, symmetric: bool)

  /** What validate_view accepts. */
  ghost predicate Accepted(v: View) {
    && v.bits in {2, 3, 4, 5, 6, 8} && v.groupSize in {32, 64, 128}
    && v.rows > 0 && v.columns > 0 && v.rows * v.columns < 0x8000_0000_0000_0000 && v.columns % v.groupSize == 0
    && v.columns * v.bits % 8 == 0 && |v.codes| == v.rows * (v.columns * v.bits / 8) && Bytes(v.codes)
    && |v.scales| == v.rows * (v.columns / v.groupSize)
    && |v.biases| == if v.symmetric then 0 else |v.scales|
  }

  /** What the loads need: consistent sizes, and rows whose bits an int can index. */
  ghost predicate ValidView(v: View) {
    && 1 <= v.bits <= 8 && v.groupSize > 0 && v.columns % v.groupSize == 0
    && v.columns * v.bits % 8 == 0 && IntIndexed(v.columns, v.bits)
    && Bytes(v.codes) && |v.codes| == Flat(v.rows, v.columns * v.bits / 8, 0)
    && |v.scales| == Flat(v.rows, v.columns / v.groupSize, 0)
    && |v.biases| == if v.symmetric then 0 else |v.scales|
  }

  /** An accepted view serves all its loads if and only if an int can index the bits of a row. */
  lemma AcceptedServes(v: View)
    requires Accepted(v)
    ensures ValidView(v) <==> IntIndexed(v.columns, v.bits)
    ensures ValidView(v) <==> forall column: nat | column < v.columns :: ToInt(column * v.bits) / 8 == column * v.bits / 8
  {
    FlatProduct(v.rows, v.columns * v.bits / 8, 0);
    FlatProduct(v.rows, v.columns / v.groupSize, 0);
    RowFitsInt(v.columns, v.bits);
  }

  /** One row of 2^28 + 32 eight-bit codes, all zero. */
  function LongView(): View {
    View(seq(0x1000_0020, _ => 0), seq(0x80_0001, _ => 1.0), [], 1, 0x1000_0020, 8, 32, true)
  }

  /** It is accepted, yet its column 2^28 is looked for 2^28 bytes before the row. */
  lemma LongRowWraps()
    ensures Accepted(LongView()) && !IntIndexed(LongView().columns, LongView().bits)
    ensures 0x1000_0000 < LongView().columns && ToInt(0x1000_0000 * LongView().bits) / 8 == -0x1000_0000
  {
  }

  /** The group of a column, as an index into the scales. */
  function GroupOf(columns: nat, groupSize: nat, row: nat, column: nat): nat
    requires groupSize > 0
  {
    row * (columns / groupSize) + column / groupSize
  }

  lemma GroupInScales(columns: nat, groupSize: nat, rows: nat, row: nat, column: nat)
    requires groupSize > 0 && columns % groupSize == 0 && row < rows && column < columns
    ensures GroupOf(columns, groupSize, row, column) < Flat(rows, columns / groupSize, 0)
  {
    DivMod(columns, groupSize);
    DivMod(column, groupSize);
    QuotRem(columns, groupSize);
    var per := Quot(columns, groupSize);
    FlatProduct(per, groupSize, 0);
    FlatSplit(column, per, groupSize);
    FlatProduct(row, per, Quot(column, groupSize));
    FlatOrder(row, rows, per, Quot(column, groupSize), 0);
  }

  function Affine(code: nat, scale: real, bias: real): real {
    Times(code as real, scale) + bias
  }

  // ---------- packing with its dequantized mirror ----------

  /** The dequantized entries before (row, column), in row-major order, are the decoded codes. */
  ghost predicate Mirrored(values: seq<real>, codes: seq<nat>, scales: seq<real>, biases: seq<real>, n: nat, k: nat,
                           groupSize: nat, done: nat)
    requires groupSize > 0
  {
    && |values| == |codes| == Flat(n, k, 0) && |biases| == |scales|
    && forall row: nat, column: nat | column < k && Flat(row, k, column) < done ::
      MirrorAt(values, codes, scales, biases, k, groupSize, row, column)
  }

  ghost predicate MirrorAt(values: seq<real>, codes: seq<nat>, scales: seq<real>, biases: seq<real>, k: nat,
                           groupSize: nat, row: nat, column: nat)
    requires groupSize > 0
  {
    var at, group := Flat(row, k, column), GroupOf(k, groupSize, row, column);
    at < |values| && at < |codes| && group < |scales| && group < |biases|
    && values[at] == Affine(codes[at], scales[group], biases[group])
  }

  lemma MirrorStep(before: seq<real>, after: seq<real>, codes: seq<nat>, scales: seq<real>, biases: seq<real>, n: nat,
                   k: nat, groupSize: nat, row: nat, column: nat)
    requires groupSize > 0 && row < n && column < k
    requires Mirrored(before, codes, scales, biases, n, k, groupSize, Flat(row, k, column))
    requires |after| == |before|
    requires forall i | 0 <= i < |after| && i != Flat(row, k, column) :: after[i] == before[i]
    requires MirrorAt(after, codes, scales, biases, k, groupSize, row, column)
    ensures Mirrored(after, codes, scales, biases, n, k, groupSize, Flat(row, k, column) + 1)
  {
    hide GroupOf, Affine, Flat;
    var done := Flat(row, k, column) + 1;
    forall r: nat, c: nat | c < k && Flat(r, k, c) < done
      ensures MirrorAt(after, codes, scales, biases, k, groupSize, r, c)
    {
      if Flat(r, k, c) == Flat(row, k, column) {
        FlatInjective(r, row, k, c, column);
      } else {
        assert MirrorAt(before, codes, scales, biases, k, groupSize, r, c);
      }
    }
  }

  method MirrorCode(values: array<real>, codes: seq<nat>, scales: seq<real>, biases: seq<real>, ghost n: nat, k: nat,
                    groupSize: nat, row: nat, column: nat)
    requires groupSize > 0 && k % groupSize == 0 && row < n && column < k
    requires |scales| == |biases| == Flat(n, k / groupSize, 0)
    requires Mirrored(values[..], codes, scales, biases, n, k, groupSize, Flat(row, k, column))
    modifies values
    ensures Mirrored(values[..], codes, scales, biases, n, k, groupSize, Flat(row, k, column) + 1)
  {
    hide Affine, Mirrored;
    MirroredSizes(values[..], codes, scales, biases, n, k, groupSize, Flat(row, k, column));
    FlatProduct(row, k, column);
    FlatOrder(row, n, k, column, 0);
    GroupInScales(k, groupSize, n, row, column);
    var group := GroupOf(k, groupSize, row, column);
    ghost var before := values[..];
    values[row * k + column] := Affine(codes[row * k + column], scales[group], biases[group]);
    MirrorStep(before, values[..], codes, scales, biases, n, k, groupSize, row, column);
  }

  lemma MirroredSizes(values: seq<real>, codes: seq<nat>, scales: seq<real>, biases: seq<real>, n: nat, k: nat,
                      groupSize: nat, done: nat)
    requires groupSize > 0 && Mirrored(values, codes, scales, biases, n, k, groupSize, done)
    ensures |values| == |codes| == Flat(n, k, 0) && |biases| == |scales|
  {
  }

  /** The loops of base_q_projection: pack every code and note the value it stands for. */
  method PackMatrix(codes: seq<nat>, scales: seq<real>, biases: seq<real>, n: nat, k: nat, bits: nat, groupSize: nat)
    returns (bytes: array<nat>, dequantized: array<real>)
    requires 1 <= bits <= 8 && k * bits % 8 == 0 && IntIndexed(k, bits)
    requires groupSize > 0 && k % groupSize == 0
    requires |codes| == Flat(n, k, 0) && Codes(codes, bits)
    requires |scales| == |biases| == Flat(n, k / groupSize, 0)
    ensures Packing(bytes[..], k * bits / 8, codes, n, k, bits, n, 0)
    ensures Mirrored(dequantized[..], codes, scales, biases, n, k, groupSize, Flat(n, k, 0))
  {
    hide Packing, Mirrored, Codes;
    var rowBytes := k * bits / 8;
    FlatProduct(n, rowBytes, 0);
    FlatProduct(n, k, 0);
    bytes := new nat[n * rowBytes](i => 0);
    dequantized := new real[n * k](i => 0.0);
    ZeroPacking(bytes[..], rowBytes, codes, n, k, bits);
    NothingMirrored(dequantized[..], codes, scales, biases, n, k, groupSize);
    for row := 0 to n
      invariant Packing(bytes[..], rowBytes, codes, n, k, bits, row, 0)
      invariant Mirrored(dequantized[..], codes, scales, biases, n, k, groupSize, Flat(row, k, 0))
    {
      for column := 0 to k
        invariant Packing(bytes[..], rowBytes, codes, n, k, bits, row, column)
        invariant Mirrored(dequantized[..], codes, scales, biases, n, k, groupSize, Flat(row, k, column))
      {
        PackCode(bytes, codes, n, k, bits, rowBytes, row, column);
        MirrorCode(dequantized, codes, scales, biases, n, k, groupSize, row, column);
        FlatShift(row, k, column, 1);
      }
      NextRow(bytes[..], rowBytes, codes, n, k, bits, row);
      FlatShift(row, k, 0, k);
    }
  }

  lemma NothingMirrored(values: seq<real>, codes: seq<nat>, scales: seq<real>, biases: seq<real>, n: nat, k: nat,
                        groupSize: nat)
    requires groupSize > 0 && |values| == |codes| == Flat(n, k, 0) && |biases| == |scales|
    ensures Mirrored(values, codes, scales, biases, n, k, groupSize, 0)
  {
  }

  // ---------- reading ----------

  function WordAt(bytes: seq<nat>, byte: nat, two: bool): nat
    requires byte < |bytes| && (two ==> byte + 1 < |bytes|)
  {
    if two then BitOr(bytes[byte], Shl(bytes[byte + 1], 8)) else bytes[byte]
  }

  lemma WordInRow(bytes: seq<nat>, offset: nat, n: nat, byte: nat, two: bool)
    requires offset + n <= |bytes| && byte < n && (two ==> byte + 1 < n)
    ensures WordAt(bytes, offset + byte, two) == WordAt(Stretch(bytes, offset, n), byte, two)
  {
  }

  /** Where load_code looks for a code: the byte in the whole array, and the shift inside it. */
  function CodeByte(v: View, row: nat, column: nat): int {
    row * (v.columns * v.bits / 8) + ToInt(column * v.bits) / 8
  }

  function CodeShift(v: View, column: nat): nat {
    ToInt(column * v.bits) % 8
  }

  /** load_code: one byte, or two when the code straddles a boundary. */
  function LoadCode(v: View, row: nat, column: nat): nat
    requires ValidView(v) && row < v.rows && column < v.columns
  {
    WindowInside(v, row, column);
    var byte, shift := CodeByte(v, row, column), CodeShift(v, column);
    Low(Shr(WordAt(v.codes, byte, shift + v.bits > 8), shift), v.bits)
  }

  /** The bytes of a code lie inside its row. */
  lemma WindowInside(v: View, row: nat, column: nat)
    requires ValidView(v) && row < v.rows && column < v.columns
    ensures var rowBytes, bit := v.columns * v.bits / 8, Flat(column, v.bits, 0);
      && Flat(row, rowBytes, 0) + rowBytes <= |v.codes| && bit + v.bits <= 8 * rowBytes
      && CodeByte(v, row, column) == Flat(row, rowBytes, 0) + bit / 8 && CodeShift(v, column) == bit % 8
  {
    ColumnFitsInt(v.columns, v.bits, column);
    hide ToInt;
    var rowBytes := v.columns * v.bits / 8;
    RowInside(row, v.rows, rowBytes);
    FlatProduct(row, rowBytes, 0);
    FlatProduct(column, v.bits, 0);
    FlatProduct(v.columns, v.bits, 0);
    FlatOrderColumns(column, v.columns, v.bits);
    NextColumn(column, v.bits);
  }

  /** A window of at most two bytes shows the same bits as the whole row. */
  lemma TwoBytes(row: seq<nat>, byte: nat, shift: nat, bits: nat)
    requires byte < |row| && Bytes(row) && shift < 8 && bits <= 8
    requires shift + bits > 8 ==> byte + 1 < |row|
    ensures Low(Shr(Little(row), 8 * byte + shift), bits) == Low(Shr(WordAt(row, byte, shift + bits > 8), shift), bits)
  {
    hide Shl, Shr, Low, BitOr, Little;
    DropBytes(row, byte);
    ShrShr(Little(row), 8 * byte, shift);
    if shift + bits > 8 {
      TwoLow(row[byte..]);
      WindowIgnoresHigh(row[byte] + Shl(row[byte + 1], 8), Little(row[byte..][2..]), 16, shift, bits);
      OrAdds(row[byte], row[byte + 1], 8);
    } else {
      OneLow(row[byte..]);
      WindowIgnoresHigh(row[byte], Little(row[byte..][1..]), 8, shift, bits);
    }
  }

  lemma OneLow(s: seq<nat>)
    requires s != []
    ensures Little(s) == s[0] + Shl(Little(s[1..]), 8)
  {
  }

  lemma DropBytes(row: seq<nat>, byte: nat)
    requires byte <= |row| && Bytes(row)
    ensures Shr(Little(row), 8 * byte) == Little(row[byte..])
  {
    assert row == row[..byte] + row[byte..];
    LittleConcat(row[..byte], row[byte..]);
    LittleBound(row[..byte]);
    SplitUnique(Little(row), 8 * byte, Little(row[byte..]), Little(row[..byte]));
  }

  lemma TwoLow(s: seq<nat>)
    requires |s| >= 2 && s[0] < 256
    ensures Little(s) == s[0] + Shl(s[1], 8) + Shl(Little(s[2..]), 16)
    ensures s[0] < Shl(1, 8)
  {
    var high := Little(s[2..]);
    assert s[1..][1..] == s[2..];
    ShlAdd(s[1], Shl(high, 8), 8);
    ShlShl(high, 8, 8);
    assert Shl(1, 8) == 256;
  }

  lemma {:induction false} LittleBound(s: seq<nat>)
    requires Bytes(s)
    ensures Little(s) < Shl(1, 8 * |s|)
  {
    if s != [] {
      LittleBound(s[1..]);
      ShlGap(Little(s[1..]), Shl(1, 8 * |s[1..]|), 8);
      ShlShl(1, 8 * |s[1..]|, 8);
      assert Shl(1, 8) == 256;
    }
  }

  /** load_code reads `bits` bits of the row's little-endian number, at bit column * bits. */
  lemma LoadReads(v: View, row: nat, column: nat)
    requires ValidView(v) && row < v.rows && column < v.columns
    ensures var rowBytes := v.columns * v.bits / 8;
      && Flat(row, rowBytes, 0) + rowBytes <= |v.codes|
      && LoadCode(v, row, column)
         == Low(Shr(Little(Stretch(v.codes, Flat(row, rowBytes, 0), rowBytes)), Flat(column, v.bits, 0)), v.bits)
  {
    hide Little, Shr, Low, Shl, BitOr, WordAt, Stretch, CodeByte, CodeShift, ValidView;
    WindowInside(v, row, column);
    ValidBits(v);
    var rowBytes := v.columns * v.bits / 8;
    WindowReads(v.codes, Flat(row, rowBytes, 0), rowBytes, Flat(column, v.bits, 0), v.bits);
  }

  lemma ValidBits(v: View)
    requires ValidView(v)
    ensures 1 <= v.bits <= 8 && Bytes(v.codes)
  {
  }

  /** Reading at a bit offset of a row that starts at `offset`. */
  lemma WindowReads(codes: seq<nat>, offset: nat, n: nat, bit: nat, bits: nat)
    requires Bytes(codes) && offset + n <= |codes| && bit + bits <= 8 * n && 1 <= bits <= 8
    ensures Low(Shr(WordAt(codes, offset + bit / 8, bit % 8 + bits > 8), bit % 8), bits)
         == Low(Shr(Little(Stretch(codes, offset, n)), bit), bits)
  {
    hide Little, Shr, Low, Shl, BitOr, WordAt;
    TwoBytes(Stretch(codes, offset, n), bit / 8, bit % 8, bits);
    WordInRow(codes, offset, n, bit / 8, bit % 8 + bits > 8);
  }

  /** Packing then loading returns every code. */
  lemma LoadPacked(v: View, codes: seq<nat>, row: nat, column: nat)
    requires ValidView(v) && row < v.rows && column < v.columns
    requires Packing(v.codes, v.columns * v.bits / 8, codes, v.rows, v.columns, v.bits, v.rows, 0)
    ensures Flat(row, v.columns, column) < |codes|
    ensures LoadCode(v, row, column) == codes[Flat(row, v.columns, column)]
  {
    hide Little, Shr, Low, Shl, BitOr, LoadCode, Packed;
    var rowBytes, k := v.columns * v.bits / 8, v.columns;
    LoadReads(v, row, column);
    assert RowAt(v.codes, rowBytes, codes, k, v.bits, v.rows, 0, row);
    var source := Stretch(codes, Flat(row, k, 0), k);
    assert source[..k] == source;
    Extract(source, v.bits, column);
    FlatShift(row, k, 0, column);
  }

  /** The weight that a code stands for: affine, or symmetric around half the range. */
  function WeightOf(v: View, row: nat, column: nat, code: nat): real
    requires ValidView(v) && row < v.rows && column < v.columns
  {
    GroupInScales(v.columns, v.groupSize, v.rows, row, column);
    var group := GroupOf(v.columns, v.groupSize, row, column);
    if v.symmetric then Times((code - Shl(1, v.bits - 1)) as real, v.scales[group])
    else Affine(code, v.scales[group], v.biases[group])
  }

  /** load_weight */
  function LoadWeight(v: View, row: nat, column: nat): real
    requires ValidView(v) && row < v.rows && column < v.columns
  {
    WeightOf(v, row, column, LoadCode(v, row, column))
  }

  /** The matrix of the weights that the codes stand for. */
  ghost predicate Dequantized(v: View, codes: seq<nat>, dequantized: seq<real>)
    requires ValidView(v)
  {
    && |dequantized| == |codes| == Flat(v.rows, v.columns, 0)
    && forall row: nat, column: nat | row < v.rows && column < v.columns :: DequantizedAt(v, codes, dequantized, row, column)
  }

  ghost predicate DequantizedAt(v: View, codes: seq<nat>, dequantized: seq<real>, row: nat, column: nat)
    requires ValidView(v) && row < v.rows && column < v.columns
  {
    var at := Flat(row, v.columns, column);
    at < |dequantized| && at < |codes| && dequantized[at] == WeightOf(v, row, column, codes[at])
  }

  /** The benchmark's mirror is that matrix. */
  lemma MirrorDequantizes(v: View, codes: seq<nat>, dequantized: seq<real>)
    requires ValidView(v) && !v.symmetric
    requires Mirrored(dequantized, codes, v.scales, v.biases, v.rows, v.columns, v.groupSize, Flat(v.rows, v.columns, 0))
    ensures Dequantized(v, codes, dequantized)
  {
    hide Affine, GroupOf;
    forall row: nat, column: nat | row < v.rows && column < v.columns
      ensures DequantizedAt(v, codes, dequantized, row, column)
    {
      FlatOrder(row, v.rows, v.columns, column, 0);
      assert MirrorAt(dequantized, codes, v.scales, v.biases, v.columns, v.groupSize, row, column);
    }
  }

  /** The kernel's weights, affine or symmetric, are those of the packed codes. */
  lemma LoadWeightPacked(v: View, codes: seq<nat>, dequantized: seq<real>, row: nat, column: nat)
    requires ValidView(v) && row < v.rows && column < v.columns
    requires Packing(v.codes, v.columns * v.bits / 8, codes, v.rows, v.columns, v.bits, v.rows, 0)
    requires Dequantized(v, codes, dequantized)
    ensures Flat(row, v.columns, column) < |dequantized|
    ensures LoadWeight(v, row, column) == dequantized[Flat(row, v.columns, column)]
  {
    hide LoadCode, Packing, WeightOf;
    LoadPacked(v, codes, row, column);
    assert DequantizedAt(v, codes, dequantized, row, column);
  }

  // ---------- projection ----------

  /** The dot product of the first n columns of a row with the input. */
  function RowDot(v: View, x: seq<real>, row: nat, n: nat): real
    requires ValidView(v) && row < v.rows && n <= v.columns == |x|
  {
    if n == 0 then 0.0 else RowDot(v, x, row, n - 1) + Times(LoadWeight(v, row, n - 1), x[n - 1])
  }

  /** project_row: four interleaved partial sums over the groups of a row. */
  method ProjectRow(v: View, x: seq<real>, row: nat) returns (sum: real)
    requires ValidView(v) && row < v.rows && |x| == v.columns
    ensures sum == RowDot(v, x, row, v.columns)
  {
    hide ValidView, LoadWeight, Times;
    GroupsCover(v);
    var sums := new real[4](i => 0.0);
    var groups := v.columns / v.groupSize;
    for lane := 0 to groups
      invariant lane * v.groupSize <= v.columns
      invariant sums[0] + sums[1] + sums[2] + sums[3] == RowDot(v, x, row, lane * v.groupSize)
    {
      MulGap(lane, groups, v.groupSize);
      MulSucc(lane, v.groupSize);
      var first := lane * v.groupSize;
      var end := first + v.groupSize;
      for column := first to end
        invariant sums[0] + sums[1] + sums[2] + sums[3] == RowDot(v, x, row, column)
      {
        sums[column % 4] := sums[column % 4] + Times(LoadWeight(v, row, column), x[column]);
      }
    }
    sum := (sums[0] + sums[1]) + (sums[2] + sums[3]);
  }

  lemma GroupsCover(v: View)
    requires ValidView(v)
    ensures v.groupSize > 0 && v.columns / v.groupSize * v.groupSize == v.columns
  {
    DivMod(v.columns, v.groupSize);
    QuotRem(v.columns, v.groupSize);
  }

  /** The reference's sum over one row of the dequantized matrix. */
  function ReferenceDot(dequantized: seq<real>, x: seq<real>, row: nat, k: nat, n: nat): real
    requires n <= k == |x| && Flat(row, k, 0) + k <= |dequantized|
  {
    if n == 0 then 0.0
    else ReferenceDot(dequantized, x, row, k, n - 1) + Times(dequantized[Flat(row, k, 0) + n - 1], x[n - 1])
  }

  /** Projecting through the packed bytes is the reference product with the dequantized matrix. */
  lemma {:induction false} ProjectionMatches(v: View, codes: seq<nat>, dequantized: seq<real>, x: seq<real>, row: nat, n: nat)
    requires ValidView(v) && row < v.rows && n <= v.columns == |x|
    requires Packing(v.codes, v.columns * v.bits / 8, codes, v.rows, v.columns, v.bits, v.rows, 0)
    requires Dequantized(v, codes, dequantized)
    ensures Flat(row, v.columns, 0) + v.columns <= |dequantized|
    ensures RowDot(v, x, row, n) == ReferenceDot(dequantized, x, row, v.columns, n)
    decreases n
  {
    RowInside(row, v.rows, v.columns);
    hide ValidView, LoadWeight, Times, Packing, DequantizedAt;
    if n > 0 {
      ProjectionMatches(v, codes, dequantized, x, row, n - 1);
      LoadWeightPacked(v, codes, dequantized, row, n - 1);
      FlatShift(row, v.columns, 0, n - 1);
    }
  }

  // ---------- the weights written out ----------

  /** Half the range of the codes, by their bits. */
  const HALVES: seq<nat> := [1, 2, 4, 8, 16, 32, 64, 128]

  lemma HalfRange(bits: nat)
    requires 1 <= bits <= 8
    ensures Shl(1, bits - 1) == At(HALVES, bits - 1, 0)
  {
    assert Shl(1, 0) == 1 && Shl(1, 1) == 2 && Shl(1, 2) == 4 && Shl(1, 3) == 8;
    assert Shl(1, 4) == 16 && Shl(1, 5) == 32 && Shl(1, 6) == 64 && Shl(1, 7) == 128;
  }

  /** The scale of column c of a row is entry c / groupSize of that row's scales, and so is its bias. */
  lemma WeightIs(v: View, row: nat, column: nat, code: nat)
    requires ValidView(v) && row < v.rows && column < v.columns
    ensures var group := RowMajor(row, Quot(v.columns, v.groupSize), Quot(column, v.groupSize));
      group < |v.scales|
      && WeightOf(v, row, column, code)
         == if v.symmetric then Times((code - At(HALVES, v.bits - 1, 0)) as real, v.scales[group])
            else Times(code as real, v.scales[group]) + At(v.biases, group, 0.0)
  {
    HalfRange(v.bits);
    GroupInScales(v.columns, v.groupSize, v.rows, row, column);
    GroupIs(v.columns, v.groupSize, row, column);
    hide GroupOf, RowMajor, Times, Shl, Flat, IntIndexed, Bytes;
  }

  lemma GroupIs(columns: nat, groupSize: nat, row: nat, column: nat)
    requires groupSize > 0
    ensures GroupOf(columns, groupSize, row, column) == RowMajor(row, Quot(columns, groupSize), Quot(column, groupSize))
  {
    DivMod(columns, groupSize);
    DivMod(column, groupSize);
  }

  /** The benchmark's mirror, entry by entry. */
  lemma MirrorWrittenOut(values: seq<real>, codes: seq<nat>, scales: seq<real>, biases: seq<real>, n: nat, k: nat,
                         groupSize: nat, row: nat, column: nat)
    requires groupSize > 0 && row < n && column < k
    requires Mirrored(values, codes, scales, biases, n, k, groupSize, Flat(n, k, 0))
    ensures var at, group := RowMajor(row, k, column), RowMajor(row, Quot(k, groupSize), Quot(column, groupSize));
      && at < |values| && at < |codes|
      && values[at] == Times(codes[at] as real, At(scales, group, 0.0)) + At(biases, group, 0.0)
  {
    FlatOrder(row, n, k, column, 0);
    assert MirrorAt(values, codes, scales, biases, k, groupSize, row, column);
    GroupIs(k, groupSize, row, column);
    hide GroupOf, RowMajor, Times;
  }

  /** The view's rows hold the codes. */
  ghost predicate Packs(v: View, codes: seq<nat>) {
    ValidView(v) && Packing(v.codes, v.columns * v.bits / 8, codes, v.rows, v.columns, v.bits, v.rows, 0)
  }

  /** The weight of a code: a multiple of the scale from the middle of the range, or from the bias. */
  function Decoded(code: int, half: int, symmetric: bool, scale: real, bias: real): real {
    if symmetric then Times((code - half) as real, scale) else Times(code as real, scale) + bias
  }

  ghost predicate WeightIn(v: View, codes: seq<nat>, row: nat, column: nat, weight: real)
    requires v.groupSize > 0
  {
    var at, group := RowMajor(row, v.columns, column), RowMajor(row, Quot(v.columns, v.groupSize), Quot(column, v.groupSize));
    weight == Decoded(At(codes, at, 0), At(HALVES, v.bits - 1, 0), v.symmetric, At(v.scales, group, 0.0),
                      At(v.biases, group, 0.0))
  }

  lemma LoadedWeight(v: View, codes: seq<nat>, row: nat, column: nat)
    requires Packs(v, codes) && ValidView(v) && v.groupSize > 0 && row < v.rows && column < v.columns
    ensures WeightIn(v, codes, row, column, LoadWeight(v, row, column))
  {
    LoadPacked(v, codes, row, column);
    hide Packing, LoadCode, WeightOf, Times, RowMajor, Packs;
    WeightIs(v, row, column, LoadCode(v, row, column));
  }

  /** One output of the projection, over the codes that were packed. */
  lemma {:induction false} ProjectionWrittenOut(v: View, codes: seq<nat>, x: seq<real>, row: nat, n: nat,
                                                weight: nat -> real, term: nat -> real)
    requires ValidView(v) && v.groupSize > 0 && Packs(v, codes) && row < v.rows && n <= v.columns == |x|
    requires forall c: nat | c < v.columns :: WeightIn(v, codes, row, c, weight(c)) && term(c) == Times(weight(c), x[c])
    ensures RowDot(v, x, row, n) == SumTo(term, n)
    decreases n
  {
    hide ValidView, LoadWeight, Packs, Times, RowMajor, At;
    if n > 0 {
      ProjectionWrittenOut(v, codes, x, row, n - 1, weight, term);
      LoadedWeight(v, codes, row, n - 1);
    }
  }
}

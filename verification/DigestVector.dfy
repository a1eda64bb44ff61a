/** MD2 of the 26 small letters, the fifth entry of the test suite in appendix A.5 of RFC 1319, worked out from the
    definition row by row of sixteen bytes. It goes through the padding, two rows of checksum, three blocks of
    eighteen rounds, and every entry of the substitution table. */
module DigestVector {
  import opened ByteStrings
  import opened MessageDigest
  import opened IntegrityHash

  datatype Row = Row(a0: Byte, a1: Byte, a2: Byte, a3: Byte, a4: Byte, a5: Byte, a6: Byte, a7: Byte,
    a8: Byte, a9: Byte, a10: Byte, a11: Byte, a12: Byte, a13: Byte, a14: Byte, a15: Byte)

  /** The 48 bytes a round works on. */
  datatype Buffer = Buffer(x: Row, y: Row, z: Row)

  function RowBytes(r: Row): (b: Bytes)
    ensures |b| == 16
  {
    [r.a0, r.a1, r.a2, r.a3, r.a4, r.a5, r.a6, r.a7, r.a8, r.a9, r.a10, r.a11, r.a12, r.a13, r.a14, r.a15]
  }

  function Flat(b: Buffer): (f: Bytes)
    ensures |f| == 48
  {
    RowBytes(b.x) + RowBytes(b.y) + RowBytes(b.z)
  }

  /** Sixteen steps of a round, entered with t. */
  predicate Swept(s: Table, x: Row, t: Byte, y: Row) {
    && y.a0 == Xor8(x.a0, s[t])
    && y.a1 == Xor8(x.a1, s[y.a0]) && y.a2 == Xor8(x.a2, s[y.a1]) && y.a3 == Xor8(x.a3, s[y.a2])
    && y.a4 == Xor8(x.a4, s[y.a3]) && y.a5 == Xor8(x.a5, s[y.a4]) && y.a6 == Xor8(x.a6, s[y.a5])
    && y.a7 == Xor8(x.a7, s[y.a6]) && y.a8 == Xor8(x.a8, s[y.a7]) && y.a9 == Xor8(x.a9, s[y.a8])
    && y.a10 == Xor8(x.a10, s[y.a9]) && y.a11 == Xor8(x.a11, s[y.a10]) && y.a12 == Xor8(x.a12, s[y.a11])
    && y.a13 == Xor8(x.a13, s[y.a12]) && y.a14 == Xor8(x.a14, s[y.a13]) && y.a15 == Xor8(x.a15, s[y.a14])
  }

  /** Sixteen steps of the checksum, entered with l, the first eight and the last eight. */
  predicate SummedFirst(s: Table, m: Row, c: Row, l: Byte, d: Row) {
    && d.a0 == Xor8(c.a0, s[Xor8(m.a0, l)])
    && d.a1 == Xor8(c.a1, s[Xor8(m.a1, d.a0)]) && d.a2 == Xor8(c.a2, s[Xor8(m.a2, d.a1)])
    && d.a3 == Xor8(c.a3, s[Xor8(m.a3, d.a2)]) && d.a4 == Xor8(c.a4, s[Xor8(m.a4, d.a3)])
    && d.a5 == Xor8(c.a5, s[Xor8(m.a5, d.a4)]) && d.a6 == Xor8(c.a6, s[Xor8(m.a6, d.a5)])
    && d.a7 == Xor8(c.a7, s[Xor8(m.a7, d.a6)])
  }

  predicate SummedLast(s: Table, m: Row, c: Row, d: Row) {
    && d.a8 == Xor8(c.a8, s[Xor8(m.a8, d.a7)]) && d.a9 == Xor8(c.a9, s[Xor8(m.a9, d.a8)])
    && d.a10 == Xor8(c.a10, s[Xor8(m.a10, d.a9)]) && d.a11 == Xor8(c.a11, s[Xor8(m.a11, d.a10)])
    && d.a12 == Xor8(c.a12, s[Xor8(m.a12, d.a11)]) && d.a13 == Xor8(c.a13, s[Xor8(m.a13, d.a12)])
    && d.a14 == Xor8(c.a14, s[Xor8(m.a14, d.a13)]) && d.a15 == Xor8(c.a15, s[Xor8(m.a15, d.a14)])
  }

  predicate Summed(s: Table, m: Row, c: Row, l: Byte, d: Row) {
    SummedFirst(s, m, c, l, d) && SummedLast(s, m, c, d)
  }

  lemma RowSwept(s: Table, x: Row, t: Byte, y: Row, i: nat)
    requires Swept(s, x, t, y) && i < 16
    ensures RowBytes(y)[i] == Xor8(RowBytes(x)[i], s[if i == 0 then t else RowBytes(y)[i - 1]])
  {
    hide Xor8;
  }

  lemma {:induction false} SweepIs(s: Table, x: Bytes, t: Byte, y: Bytes, k: nat)
    requires |x| == |y| && k <= |x|
    requires forall i :: 0 <= i < |x| ==> y[i] == Xor8(x[i], s[if i == 0 then t else y[i - 1]])
    ensures Sweep(s, x, t, k) == y[..k]
  {
    hide Xor8;
    if k > 0 {
      SweepIs(s, x, t, y, k - 1);
      assert y[..k] == y[..k - 1] + [y[k - 1]];
    }
  }

  /** Three swept rows are a round. */
  lemma TurnIs(s: Table, a: Buffer, t: Byte, b: Buffer)
    requires Swept(s, a.x, t, b.x) && Swept(s, a.y, b.x.a15, b.y) && Swept(s, a.z, b.y.a15, b.z)
    ensures Sweep(s, Flat(a), t, 48) == Flat(b)
  {
    var x, y := Flat(a), Flat(b);
    hide Swept, Xor8, Flat, Sweep;
    forall i | 0 <= i < 48 ensures y[i] == Xor8(x[i], s[if i == 0 then t else y[i - 1]]) {
      TurnedAt(s, a, t, b, i);
    }
    SweepIs(s, x, t, y, 48);
    assert y[..48] == y;
  }

  lemma RoundIs(s: Table, start: Bytes, j: nat, a: Buffer, t: Byte, b: Buffer)
    requires |start| == 48 && Rounds(s, start, j) == Mixed(Flat(a), t) && Sweep(s, Flat(a), t, 48) == Flat(b)
    ensures Rounds(s, start, j + 1) == Mixed(Flat(b), (b.z.a15 + j) % 256)
  {
    FlatLast(b);
    hide Flat, Sweep;
  }

  predicate Xored(a: Row, b: Row, c: Row) {
    && c.a0 == Xor8(a.a0, b.a0) && c.a1 == Xor8(a.a1, b.a1) && c.a2 == Xor8(a.a2, b.a2)
    && c.a3 == Xor8(a.a3, b.a3) && c.a4 == Xor8(a.a4, b.a4) && c.a5 == Xor8(a.a5, b.a5)
    && c.a6 == Xor8(a.a6, b.a6) && c.a7 == Xor8(a.a7, b.a7) && c.a8 == Xor8(a.a8, b.a8)
    && c.a9 == Xor8(a.a9, b.a9) && c.a10 == Xor8(a.a10, b.a10) && c.a11 == Xor8(a.a11, b.a11)
    && c.a12 == Xor8(a.a12, b.a12) && c.a13 == Xor8(a.a13, b.a13) && c.a14 == Xor8(a.a14, b.a14)
    && c.a15 == Xor8(a.a15, b.a15)
  }

  lemma XorIs(a: Row, b: Row, c: Row)
    requires Xored(a, b, c)
    ensures Xor(RowBytes(a), RowBytes(b)) == RowBytes(c)
  {
    var x := Xor(RowBytes(a), RowBytes(b));
    forall i | 0 <= i < 16 ensures x[i] == RowBytes(c)[i] { XorAt(a, b, c, i); }
    hide RowBytes, Xored;
  }

  lemma XorAt(a: Row, b: Row, c: Row, i: nat)
    requires Xored(a, b, c) && i < 16
    ensures Xor8(RowBytes(a)[i], RowBytes(b)[i]) == RowBytes(c)[i]
  {
    hide Xor8;
  }

  /** A block's first buffer, and its last. */
  lemma BlockStart(s: Table, a: Buffer)
    requires Xored(a.x, a.y, a.z)
    ensures Flat(a) == RowBytes(a.x) + RowBytes(a.y) + Xor(RowBytes(a.x), RowBytes(a.y))
    ensures Rounds(s, Flat(a), 0) == Mixed(Flat(a), 0)
  {
    XorIs(a.x, a.y, a.z);
    hide RowBytes, Xored, Xor;
  }

  lemma BlockEnd(s: Table, a: Row, b: Row, start: Bytes, end: Buffer, t: Byte)
    requires start == RowBytes(a) + RowBytes(b) + Xor(RowBytes(a), RowBytes(b))
    requires Rounds(s, start, 18) == Mixed(Flat(end), t)
    ensures Compress(s, RowBytes(a), RowBytes(b)) == RowBytes(end.x)
  {
    hide RowBytes, Xor, Rounds;
    assert Flat(end)[..16] == RowBytes(end.x);
  }

  lemma FlatLast(b: Buffer)
    ensures Flat(b)[47] == b.z.a15
  {
  }

  lemma TurnedAt(s: Table, a: Buffer, t: Byte, b: Buffer, i: nat)
    requires i < 48 && Swept(s, a.x, t, b.x) && Swept(s, a.y, b.x.a15, b.y) && Swept(s, a.z, b.y.a15, b.z)
    ensures Flat(b)[i] == Xor8(Flat(a)[i], s[if i == 0 then t else Flat(b)[i - 1]])
  {
    hide Xor8, Swept;
    if i < 16 {
      RowSwept(s, a.x, t, b.x, i);
    } else if i < 32 {
      RowSwept(s, a.y, b.x.a15, b.y, i - 16);
    } else {
      RowSwept(s, a.z, b.y.a15, b.z, i - 32);
    }
  }

  // ----- the table -----

  lemma Lookups0()
    ensures MIXING_TABLE[0] == 41 && MIXING_TABLE[1] == 46 && MIXING_TABLE[2] == 67 && MIXING_TABLE[3] == 201
    ensures MIXING_TABLE[4] == 162 && MIXING_TABLE[5] == 216 && MIXING_TABLE[6] == 124 && MIXING_TABLE[7] == 1
    ensures MIXING_TABLE[8] == 61 && MIXING_TABLE[9] == 54 && MIXING_TABLE[10] == 84 && MIXING_TABLE[11] == 161
    ensures MIXING_TABLE[12] == 236 && MIXING_TABLE[13] == 240 && MIXING_TABLE[14] == 6 && MIXING_TABLE[15] == 19
  {
    MixingAt(16, 0, 0); MixingAt(16, 0, 1); MixingAt(16, 0, 2); MixingAt(16, 0, 3);
    MixingAt(16, 0, 4); MixingAt(16, 0, 5); MixingAt(16, 0, 6); MixingAt(16, 0, 7);
    MixingAt(16, 0, 8); MixingAt(16, 0, 9); MixingAt(16, 0, 10); MixingAt(16, 0, 11);
    MixingAt(16, 0, 12); MixingAt(16, 0, 13); MixingAt(16, 0, 14); MixingAt(16, 0, 15);
    hide MIXING_TABLE, MixingRows;
  }

  lemma Lookups1()
    ensures MIXING_TABLE[16] == 98 && MIXING_TABLE[17] == 167 && MIXING_TABLE[18] == 5 && MIXING_TABLE[19] == 243
    ensures MIXING_TABLE[20] == 192 && MIXING_TABLE[21] == 199 && MIXING_TABLE[22] == 115 && MIXING_TABLE[23] == 140
    ensures MIXING_TABLE[24] == 152 && MIXING_TABLE[25] == 147 && MIXING_TABLE[26] == 43 && MIXING_TABLE[27] == 217
    ensures MIXING_TABLE[28] == 188 && MIXING_TABLE[29] == 76 && MIXING_TABLE[30] == 130 && MIXING_TABLE[31] == 202
  {
    MixingAt(16, 1, 0); MixingAt(16, 1, 1); MixingAt(16, 1, 2); MixingAt(16, 1, 3);
    MixingAt(16, 1, 4); MixingAt(16, 1, 5); MixingAt(16, 1, 6); MixingAt(16, 1, 7);
    MixingAt(16, 1, 8); MixingAt(16, 1, 9); MixingAt(16, 1, 10); MixingAt(16, 1, 11);
    MixingAt(16, 1, 12); MixingAt(16, 1, 13); MixingAt(16, 1, 14); MixingAt(16, 1, 15);
    hide MIXING_TABLE, MixingRows;
  }

  lemma Lookups2()
    ensures MIXING_TABLE[32] == 30 && MIXING_TABLE[33] == 155 && MIXING_TABLE[34] == 87 && MIXING_TABLE[35] == 60
    ensures MIXING_TABLE[36] == 253 && MIXING_TABLE[37] == 212 && MIXING_TABLE[38] == 224 && MIXING_TABLE[39] == 22
    ensures MIXING_TABLE[40] == 103 && MIXING_TABLE[41] == 66 && MIXING_TABLE[42] == 111 && MIXING_TABLE[43] == 24
    ensures MIXING_TABLE[44] == 138 && MIXING_TABLE[45] == 23 && MIXING_TABLE[46] == 229 && MIXING_TABLE[47] == 18
  {
    MixingAt(16, 2, 0); MixingAt(16, 2, 1); MixingAt(16, 2, 2); MixingAt(16, 2, 3);
    MixingAt(16, 2, 4); MixingAt(16, 2, 5); MixingAt(16, 2, 6); MixingAt(16, 2, 7);
    MixingAt(16, 2, 8); MixingAt(16, 2, 9); MixingAt(16, 2, 10); MixingAt(16, 2, 11);
    MixingAt(16, 2, 12); MixingAt(16, 2, 13); MixingAt(16, 2, 14); MixingAt(16, 2, 15);
    hide MIXING_TABLE, MixingRows;
  }

  lemma Lookups3()
    ensures MIXING_TABLE[48] == 190 && MIXING_TABLE[49] == 78 && MIXING_TABLE[50] == 196 && MIXING_TABLE[51] == 214
    ensures MIXING_TABLE[52] == 218 && MIXING_TABLE[53] == 158 && MIXING_TABLE[54] == 222 && MIXING_TABLE[55] == 73
    ensures MIXING_TABLE[56] == 160 && MIXING_TABLE[57] == 251 && MIXING_TABLE[58] == 245 && MIXING_TABLE[59] == 142
    ensures MIXING_TABLE[60] == 187 && MIXING_TABLE[61] == 47 && MIXING_TABLE[62] == 238 && MIXING_TABLE[63] == 122
  {
    MixingAt(16, 3, 0); MixingAt(16, 3, 1); MixingAt(16, 3, 2); MixingAt(16, 3, 3);
    MixingAt(16, 3, 4); MixingAt(16, 3, 5); MixingAt(16, 3, 6); MixingAt(16, 3, 7);
    MixingAt(16, 3, 8); MixingAt(16, 3, 9); MixingAt(16, 3, 10); MixingAt(16, 3, 11);
    MixingAt(16, 3, 12); MixingAt(16, 3, 13); MixingAt(16, 3, 14); MixingAt(16, 3, 15);
    hide MIXING_TABLE, MixingRows;
  }

  lemma Lookups4()
    ensures MIXING_TABLE[64] == 169 && MIXING_TABLE[65] == 104 && MIXING_TABLE[66] == 121 && MIXING_TABLE[67] == 145
    ensures MIXING_TABLE[68] == 21 && MIXING_TABLE[69] == 178 && MIXING_TABLE[70] == 7 && MIXING_TABLE[71] == 63
    ensures MIXING_TABLE[72] == 148 && MIXING_TABLE[73] == 194 && MIXING_TABLE[74] == 16 && MIXING_TABLE[75] == 137
    ensures MIXING_TABLE[76] == 11 && MIXING_TABLE[77] == 34 && MIXING_TABLE[78] == 95 && MIXING_TABLE[79] == 33
  {
    MixingAt(16, 4, 0); MixingAt(16, 4, 1); MixingAt(16, 4, 2); MixingAt(16, 4, 3);
    MixingAt(16, 4, 4); MixingAt(16, 4, 5); MixingAt(16, 4, 6); MixingAt(16, 4, 7);
    MixingAt(16, 4, 8); MixingAt(16, 4, 9); MixingAt(16, 4, 10); MixingAt(16, 4, 11);
    MixingAt(16, 4, 12); MixingAt(16, 4, 13); MixingAt(16, 4, 14); MixingAt(16, 4, 15);
    hide MIXING_TABLE, MixingRows;
  }

  lemma Lookups5()
    ensures MIXING_TABLE[80] == 128 && MIXING_TABLE[81] == 127 && MIXING_TABLE[82] == 93 && MIXING_TABLE[83] == 154
    ensures MIXING_TABLE[84] == 90 && MIXING_TABLE[85] == 144 && MIXING_TABLE[86] == 50 && MIXING_TABLE[87] == 39
    ensures MIXING_TABLE[88] == 53 && MIXING_TABLE[89] == 62 && MIXING_TABLE[90] == 204 && MIXING_TABLE[91] == 231
    ensures MIXING_TABLE[92] == 191 && MIXING_TABLE[93] == 247 && MIXING_TABLE[94] == 151 && MIXING_TABLE[95] == 3
  {
    MixingAt(16, 5, 0); MixingAt(16, 5, 1); MixingAt(16, 5, 2); MixingAt(16, 5, 3);
    MixingAt(16, 5, 4); MixingAt(16, 5, 5); MixingAt(16, 5, 6); MixingAt(16, 5, 7);
    MixingAt(16, 5, 8); MixingAt(16, 5, 9); MixingAt(16, 5, 10); MixingAt(16, 5, 11);
    MixingAt(16, 5, 12); MixingAt(16, 5, 13); MixingAt(16, 5, 14); MixingAt(16, 5, 15);
    hide MIXING_TABLE, MixingRows;
  }

  lemma Lookups6()
    ensures MIXING_TABLE[96] == 255 && MIXING_TABLE[97] == 25 && MIXING_TABLE[98] == 48 && MIXING_TABLE[99] == 179
    ensures MIXING_TABLE[100] == 72 && MIXING_TABLE[101] == 165 && MIXING_TABLE[102] == 181 && MIXING_TABLE[103] == 209
    ensures MIXING_TABLE[104] == 215 && MIXING_TABLE[105] == 94 && MIXING_TABLE[106] == 146 && MIXING_TABLE[107] == 42
    ensures MIXING_TABLE[108] == 172 && MIXING_TABLE[109] == 86 && MIXING_TABLE[110] == 170 && MIXING_TABLE[111] == 198
  {
    MixingAt(16, 6, 0); MixingAt(16, 6, 1); MixingAt(16, 6, 2); MixingAt(16, 6, 3);
    MixingAt(16, 6, 4); MixingAt(16, 6, 5); MixingAt(16, 6, 6); MixingAt(16, 6, 7);
    MixingAt(16, 6, 8); MixingAt(16, 6, 9); MixingAt(16, 6, 10); MixingAt(16, 6, 11);
    MixingAt(16, 6, 12); MixingAt(16, 6, 13); MixingAt(16, 6, 14); MixingAt(16, 6, 15);
    hide MIXING_TABLE, MixingRows;
  }

  lemma Lookups7()
    ensures MIXING_TABLE[112] == 79 && MIXING_TABLE[113] == 184 && MIXING_TABLE[114] == 56 && MIXING_TABLE[115] == 210
    ensures MIXING_TABLE[116] == 150 && MIXING_TABLE[117] == 164 && MIXING_TABLE[118] == 125 && MIXING_TABLE[119] == 182
    ensures MIXING_TABLE[120] == 118 && MIXING_TABLE[121] == 252 && MIXING_TABLE[122] == 107 && MIXING_TABLE[123] == 226
    ensures MIXING_TABLE[124] == 156 && MIXING_TABLE[125] == 116 && MIXING_TABLE[126] == 4 && MIXING_TABLE[127] == 241
  {
    MixingAt(16, 7, 0); MixingAt(16, 7, 1); MixingAt(16, 7, 2); MixingAt(16, 7, 3);
    MixingAt(16, 7, 4); MixingAt(16, 7, 5); MixingAt(16, 7, 6); MixingAt(16, 7, 7);
    MixingAt(16, 7, 8); MixingAt(16, 7, 9); MixingAt(16, 7, 10); MixingAt(16, 7, 11);
    MixingAt(16, 7, 12); MixingAt(16, 7, 13); MixingAt(16, 7, 14); MixingAt(16, 7, 15);
    hide MIXING_TABLE, MixingRows;
  }

  lemma Lookups8()
    ensures MIXING_TABLE[128] == 69 && MIXING_TABLE[129] == 157 && MIXING_TABLE[130] == 112 && MIXING_TABLE[131] == 89
    ensures MIXING_TABLE[132] == 100 && MIXING_TABLE[133] == 113 && MIXING_TABLE[134] == 135 && MIXING_TABLE[135] == 32
    ensures MIXING_TABLE[136] == 134 && MIXING_TABLE[137] == 91 && MIXING_TABLE[138] == 207 && MIXING_TABLE[139] == 101
    ensures MIXING_TABLE[140] == 230 && MIXING_TABLE[141] == 45 && MIXING_TABLE[142] == 168 && MIXING_TABLE[143] == 2
  {
    MixingAt(16, 8, 0); MixingAt(16, 8, 1); MixingAt(16, 8, 2); MixingAt(16, 8, 3);
    MixingAt(16, 8, 4); MixingAt(16, 8, 5); MixingAt(16, 8, 6); MixingAt(16, 8, 7);
    MixingAt(16, 8, 8); MixingAt(16, 8, 9); MixingAt(16, 8, 10); MixingAt(16, 8, 11);
    MixingAt(16, 8, 12); MixingAt(16, 8, 13); MixingAt(16, 8, 14); MixingAt(16, 8, 15);
    hide MIXING_TABLE, MixingRows;
  }

  lemma Lookups9()
    ensures MIXING_TABLE[144] == 27 && MIXING_TABLE[145] == 96 && MIXING_TABLE[146] == 37 && MIXING_TABLE[147] == 173
    ensures MIXING_TABLE[148] == 174 && MIXING_TABLE[149] == 176 && MIXING_TABLE[150] == 185 && MIXING_TABLE[151] == 246
    ensures MIXING_TABLE[152] == 28 && MIXING_TABLE[153] == 70 && MIXING_TABLE[154] == 97 && MIXING_TABLE[155] == 105
    ensures MIXING_TABLE[156] == 52 && MIXING_TABLE[157] == 64 && MIXING_TABLE[158] == 126 && MIXING_TABLE[159] == 15
  {
    MixingAt(16, 9, 0); MixingAt(16, 9, 1); MixingAt(16, 9, 2); MixingAt(16, 9, 3);
    MixingAt(16, 9, 4); MixingAt(16, 9, 5); MixingAt(16, 9, 6); MixingAt(16, 9, 7);
    MixingAt(16, 9, 8); MixingAt(16, 9, 9); MixingAt(16, 9, 10); MixingAt(16, 9, 11);
    MixingAt(16, 9, 12); MixingAt(16, 9, 13); MixingAt(16, 9, 14); MixingAt(16, 9, 15);
    hide MIXING_TABLE, MixingRows;
  }

  lemma Lookups10()
    ensures MIXING_TABLE[160] == 85 && MIXING_TABLE[161] == 71 && MIXING_TABLE[162] == 163 && MIXING_TABLE[163] == 35
    ensures MIXING_TABLE[164] == 221 && MIXING_TABLE[165] == 81 && MIXING_TABLE[166] == 175 && MIXING_TABLE[167] == 58
    ensures MIXING_TABLE[168] == 195 && MIXING_TABLE[169] == 92 && MIXING_TABLE[170] == 249 && MIXING_TABLE[171] == 206
    ensures MIXING_TABLE[172] == 186 && MIXING_TABLE[173] == 197 && MIXING_TABLE[174] == 234 && MIXING_TABLE[175] == 38
  {
    MixingAt(16, 10, 0); MixingAt(16, 10, 1); MixingAt(16, 10, 2); MixingAt(16, 10, 3);
    MixingAt(16, 10, 4); MixingAt(16, 10, 5); MixingAt(16, 10, 6); MixingAt(16, 10, 7);
    MixingAt(16, 10, 8); MixingAt(16, 10, 9); MixingAt(16, 10, 10); MixingAt(16, 10, 11);
    MixingAt(16, 10, 12); MixingAt(16, 10, 13); MixingAt(16, 10, 14); MixingAt(16, 10, 15);
    hide MIXING_TABLE, MixingRows;
  }

  lemma Lookups11()
    ensures MIXING_TABLE[176] == 44 && MIXING_TABLE[177] == 83 && MIXING_TABLE[178] == 13 && MIXING_TABLE[179] == 110
    ensures MIXING_TABLE[180] == 133 && MIXING_TABLE[181] == 40 && MIXING_TABLE[182] == 132 && MIXING_TABLE[183] == 9
    ensures MIXING_TABLE[184] == 211 && MIXING_TABLE[185] == 223 && MIXING_TABLE[186] == 205 && MIXING_TABLE[187] == 244
    ensures MIXING_TABLE[188] == 65 && MIXING_TABLE[189] == 129 && MIXING_TABLE[190] == 77 && MIXING_TABLE[191] == 82
  {
    MixingAt(16, 11, 0); MixingAt(16, 11, 1); MixingAt(16, 11, 2); MixingAt(16, 11, 3);
    MixingAt(16, 11, 4); MixingAt(16, 11, 5); MixingAt(16, 11, 6); MixingAt(16, 11, 7);
    MixingAt(16, 11, 8); MixingAt(16, 11, 9); MixingAt(16, 11, 10); MixingAt(16, 11, 11);
    MixingAt(16, 11, 12); MixingAt(16, 11, 13); MixingAt(16, 11, 14); MixingAt(16, 11, 15);
    hide MIXING_TABLE, MixingRows;
  }

  lemma Lookups12()
    ensures MIXING_TABLE[192] == 106 && MIXING_TABLE[193] == 220 && MIXING_TABLE[194] == 55 && MIXING_TABLE[195] == 200
    ensures MIXING_TABLE[196] == 108 && MIXING_TABLE[197] == 193 && MIXING_TABLE[198] == 171 && MIXING_TABLE[199] == 250
    ensures MIXING_TABLE[200] == 36 && MIXING_TABLE[201] == 225 && MIXING_TABLE[202] == 123 && MIXING_TABLE[203] == 8
    ensures MIXING_TABLE[204] == 12 && MIXING_TABLE[205] == 189 && MIXING_TABLE[206] == 177 && MIXING_TABLE[207] == 74
  {
    MixingAt(16, 12, 0); MixingAt(16, 12, 1); MixingAt(16, 12, 2); MixingAt(16, 12, 3);
    MixingAt(16, 12, 4); MixingAt(16, 12, 5); MixingAt(16, 12, 6); MixingAt(16, 12, 7);
    MixingAt(16, 12, 8); MixingAt(16, 12, 9); MixingAt(16, 12, 10); MixingAt(16, 12, 11);
    MixingAt(16, 12, 12); MixingAt(16, 12, 13); MixingAt(16, 12, 14); MixingAt(16, 12, 15);
    hide MIXING_TABLE, MixingRows;
  }

  lemma Lookups13()
    ensures MIXING_TABLE[208] == 120 && MIXING_TABLE[209] == 136 && MIXING_TABLE[210] == 149 && MIXING_TABLE[211] == 139
    ensures MIXING_TABLE[212] == 227 && MIXING_TABLE[213] == 99 && MIXING_TABLE[214] == 232 && MIXING_TABLE[215] == 109
    ensures MIXING_TABLE[216] == 233 && MIXING_TABLE[217] == 203 && MIXING_TABLE[218] == 213 && MIXING_TABLE[219] == 254
    ensures MIXING_TABLE[220] == 59 && MIXING_TABLE[221] == 0 && MIXING_TABLE[222] == 29 && MIXING_TABLE[223] == 57
  {
    MixingAt(16, 13, 0); MixingAt(16, 13, 1); MixingAt(16, 13, 2); MixingAt(16, 13, 3);
    MixingAt(16, 13, 4); MixingAt(16, 13, 5); MixingAt(16, 13, 6); MixingAt(16, 13, 7);
    MixingAt(16, 13, 8); MixingAt(16, 13, 9); MixingAt(16, 13, 10); MixingAt(16, 13, 11);
    MixingAt(16, 13, 12); MixingAt(16, 13, 13); MixingAt(16, 13, 14); MixingAt(16, 13, 15);
    hide MIXING_TABLE, MixingRows;
  }

  lemma Lookups14()
    ensures MIXING_TABLE[224] == 242 && MIXING_TABLE[225] == 239 && MIXING_TABLE[226] == 183 && MIXING_TABLE[227] == 14
    ensures MIXING_TABLE[228] == 102 && MIXING_TABLE[229] == 88 && MIXING_TABLE[230] == 208 && MIXING_TABLE[231] == 228
    ensures MIXING_TABLE[232] == 166 && MIXING_TABLE[233] == 119 && MIXING_TABLE[234] == 114 && MIXING_TABLE[235] == 248
    ensures MIXING_TABLE[236] == 235 && MIXING_TABLE[237] == 117 && MIXING_TABLE[238] == 75 && MIXING_TABLE[239] == 10
  {
    MixingAt(16, 14, 0); MixingAt(16, 14, 1); MixingAt(16, 14, 2); MixingAt(16, 14, 3);
    MixingAt(16, 14, 4); MixingAt(16, 14, 5); MixingAt(16, 14, 6); MixingAt(16, 14, 7);
    MixingAt(16, 14, 8); MixingAt(16, 14, 9); MixingAt(16, 14, 10); MixingAt(16, 14, 11);
    MixingAt(16, 14, 12); MixingAt(16, 14, 13); MixingAt(16, 14, 14); MixingAt(16, 14, 15);
    hide MIXING_TABLE, MixingRows;
  }

  lemma Lookups15()
    ensures MIXING_TABLE[240] == 49 && MIXING_TABLE[241] == 68 && MIXING_TABLE[242] == 80 && MIXING_TABLE[243] == 180
    ensures MIXING_TABLE[244] == 143 && MIXING_TABLE[245] == 237 && MIXING_TABLE[246] == 31 && MIXING_TABLE[247] == 26
    ensures MIXING_TABLE[248] == 219 && MIXING_TABLE[249] == 153 && MIXING_TABLE[250] == 141 && MIXING_TABLE[251] == 51
    ensures MIXING_TABLE[252] == 159 && MIXING_TABLE[253] == 17 && MIXING_TABLE[254] == 131 && MIXING_TABLE[255] == 20
  {
    MixingAt(16, 15, 0); MixingAt(16, 15, 1); MixingAt(16, 15, 2); MixingAt(16, 15, 3);
    MixingAt(16, 15, 4); MixingAt(16, 15, 5); MixingAt(16, 15, 6); MixingAt(16, 15, 7);
    MixingAt(16, 15, 8); MixingAt(16, 15, 9); MixingAt(16, 15, 10); MixingAt(16, 15, 11);
    MixingAt(16, 15, 12); MixingAt(16, 15, 13); MixingAt(16, 15, 14); MixingAt(16, 15, 15);
    hide MIXING_TABLE, MixingRows;
  }

  lemma Lookups()
    ensures MIXING_TABLE[0] == 41 && MIXING_TABLE[1] == 46 && MIXING_TABLE[2] == 67 && MIXING_TABLE[3] == 201
    ensures MIXING_TABLE[4] == 162 && MIXING_TABLE[5] == 216 && MIXING_TABLE[6] == 124 && MIXING_TABLE[7] == 1
    ensures MIXING_TABLE[8] == 61 && MIXING_TABLE[9] == 54 && MIXING_TABLE[10] == 84 && MIXING_TABLE[11] == 161
    ensures MIXING_TABLE[12] == 236 && MIXING_TABLE[13] == 240 && MIXING_TABLE[14] == 6 && MIXING_TABLE[15] == 19
    ensures MIXING_TABLE[16] == 98 && MIXING_TABLE[17] == 167 && MIXING_TABLE[18] == 5 && MIXING_TABLE[19] == 243
    ensures MIXING_TABLE[20] == 192 && MIXING_TABLE[21] == 199 && MIXING_TABLE[22] == 115 && MIXING_TABLE[23] == 140
    ensures MIXING_TABLE[24] == 152 && MIXING_TABLE[25] == 147 && MIXING_TABLE[26] == 43 && MIXING_TABLE[27] == 217
    ensures MIXING_TABLE[28] == 188 && MIXING_TABLE[29] == 76 && MIXING_TABLE[30] == 130 && MIXING_TABLE[31] == 202
    ensures MIXING_TABLE[32] == 30 && MIXING_TABLE[33] == 155 && MIXING_TABLE[34] == 87 && MIXING_TABLE[35] == 60
    ensures MIXING_TABLE[36] == 253 && MIXING_TABLE[37] == 212 && MIXING_TABLE[38] == 224 && MIXING_TABLE[39] == 22
    ensures MIXING_TABLE[40] == 103 && MIXING_TABLE[41] == 66 && MIXING_TABLE[42] == 111 && MIXING_TABLE[43] == 24
    ensures MIXING_TABLE[44] == 138 && MIXING_TABLE[45] == 23 && MIXING_TABLE[46] == 229 && MIXING_TABLE[47] == 18
    ensures MIXING_TABLE[48] == 190 && MIXING_TABLE[49] == 78 && MIXING_TABLE[50] == 196 && MIXING_TABLE[51] == 214
    ensures MIXING_TABLE[52] == 218 && MIXING_TABLE[53] == 158 && MIXING_TABLE[54] == 222 && MIXING_TABLE[55] == 73
    ensures MIXING_TABLE[56] == 160 && MIXING_TABLE[57] == 251 && MIXING_TABLE[58] == 245 && MIXING_TABLE[59] == 142
    ensures MIXING_TABLE[60] == 187 && MIXING_TABLE[61] == 47 && MIXING_TABLE[62] == 238 && MIXING_TABLE[63] == 122
    ensures MIXING_TABLE[64] == 169 && MIXING_TABLE[65] == 104 && MIXING_TABLE[66] == 121 && MIXING_TABLE[67] == 145
    ensures MIXING_TABLE[68] == 21 && MIXING_TABLE[69] == 178 && MIXING_TABLE[70] == 7 && MIXING_TABLE[71] == 63
    ensures MIXING_TABLE[72] == 148 && MIXING_TABLE[73] == 194 && MIXING_TABLE[74] == 16 && MIXING_TABLE[75] == 137
    ensures MIXING_TABLE[76] == 11 && MIXING_TABLE[77] == 34 && MIXING_TABLE[78] == 95 && MIXING_TABLE[79] == 33
    ensures MIXING_TABLE[80] == 128 && MIXING_TABLE[81] == 127 && MIXING_TABLE[82] == 93 && MIXING_TABLE[83] == 154
    ensures MIXING_TABLE[84] == 90 && MIXING_TABLE[85] == 144 && MIXING_TABLE[86] == 50 && MIXING_TABLE[87] == 39
    ensures MIXING_TABLE[88] == 53 && MIXING_TABLE[89] == 62 && MIXING_TABLE[90] == 204 && MIXING_TABLE[91] == 231
    ensures MIXING_TABLE[92] == 191 && MIXING_TABLE[93] == 247 && MIXING_TABLE[94] == 151 && MIXING_TABLE[95] == 3
    ensures MIXING_TABLE[96] == 255 && MIXING_TABLE[97] == 25 && MIXING_TABLE[98] == 48 && MIXING_TABLE[99] == 179
    ensures MIXING_TABLE[100] == 72 && MIXING_TABLE[101] == 165 && MIXING_TABLE[102] == 181 && MIXING_TABLE[103] == 209
    ensures MIXING_TABLE[104] == 215 && MIXING_TABLE[105] == 94 && MIXING_TABLE[106] == 146 && MIXING_TABLE[107] == 42
    ensures MIXING_TABLE[108] == 172 && MIXING_TABLE[109] == 86 && MIXING_TABLE[110] == 170 && MIXING_TABLE[111] == 198
    ensures MIXING_TABLE[112] == 79 && MIXING_TABLE[113] == 184 && MIXING_TABLE[114] == 56 && MIXING_TABLE[115] == 210
    ensures MIXING_TABLE[116] == 150 && MIXING_TABLE[117] == 164 && MIXING_TABLE[118] == 125 && MIXING_TABLE[119] == 182
    ensures MIXING_TABLE[120] == 118 && MIXING_TABLE[121] == 252 && MIXING_TABLE[122] == 107 && MIXING_TABLE[123] == 226
    ensures MIXING_TABLE[124] == 156 && MIXING_TABLE[125] == 116 && MIXING_TABLE[126] == 4 && MIXING_TABLE[127] == 241
    ensures MIXING_TABLE[128] == 69 && MIXING_TABLE[129] == 157 && MIXING_TABLE[130] == 112 && MIXING_TABLE[131] == 89
    ensures MIXING_TABLE[132] == 100 && MIXING_TABLE[133] == 113 && MIXING_TABLE[134] == 135 && MIXING_TABLE[135] == 32
    ensures MIXING_TABLE[136] == 134 && MIXING_TABLE[137] == 91 && MIXING_TABLE[138] == 207 && MIXING_TABLE[139] == 101
    ensures MIXING_TABLE[140] == 230 && MIXING_TABLE[141] == 45 && MIXING_TABLE[142] == 168 && MIXING_TABLE[143] == 2
    ensures MIXING_TABLE[144] == 27 && MIXING_TABLE[145] == 96 && MIXING_TABLE[146] == 37 && MIXING_TABLE[147] == 173
    ensures MIXING_TABLE[148] == 174 && MIXING_TABLE[149] == 176 && MIXING_TABLE[150] == 185 && MIXING_TABLE[151] == 246
    ensures MIXING_TABLE[152] == 28 && MIXING_TABLE[153] == 70 && MIXING_TABLE[154] == 97 && MIXING_TABLE[155] == 105
    ensures MIXING_TABLE[156] == 52 && MIXING_TABLE[157] == 64 && MIXING_TABLE[158] == 126 && MIXING_TABLE[159] == 15
    ensures MIXING_TABLE[160] == 85 && MIXING_TABLE[161] == 71 && MIXING_TABLE[162] == 163 && MIXING_TABLE[163] == 35
    ensures MIXING_TABLE[164] == 221 && MIXING_TABLE[165] == 81 && MIXING_TABLE[166] == 175 && MIXING_TABLE[167] == 58
    ensures MIXING_TABLE[168] == 195 && MIXING_TABLE[169] == 92 && MIXING_TABLE[170] == 249 && MIXING_TABLE[171] == 206
    ensures MIXING_TABLE[172] == 186 && MIXING_TABLE[173] == 197 && MIXING_TABLE[174] == 234 && MIXING_TABLE[175] == 38
    ensures MIXING_TABLE[176] == 44 && MIXING_TABLE[177] == 83 && MIXING_TABLE[178] == 13 && MIXING_TABLE[179] == 110
    ensures MIXING_TABLE[180] == 133 && MIXING_TABLE[181] == 40 && MIXING_TABLE[182] == 132 && MIXING_TABLE[183] == 9
    ensures MIXING_TABLE[184] == 211 && MIXING_TABLE[185] == 223 && MIXING_TABLE[186] == 205 && MIXING_TABLE[187] == 244
    ensures MIXING_TABLE[188] == 65 && MIXING_TABLE[189] == 129 && MIXING_TABLE[190] == 77 && MIXING_TABLE[191] == 82
    ensures MIXING_TABLE[192] == 106 && MIXING_TABLE[193] == 220 && MIXING_TABLE[194] == 55 && MIXING_TABLE[195] == 200
    ensures MIXING_TABLE[196] == 108 && MIXING_TABLE[197] == 193 && MIXING_TABLE[198] == 171 && MIXING_TABLE[199] == 250
    ensures MIXING_TABLE[200] == 36 && MIXING_TABLE[201] == 225 && MIXING_TABLE[202] == 123 && MIXING_TABLE[203] == 8
    ensures MIXING_TABLE[204] == 12 && MIXING_TABLE[205] == 189 && MIXING_TABLE[206] == 177 && MIXING_TABLE[207] == 74
    ensures MIXING_TABLE[208] == 120 && MIXING_TABLE[209] == 136 && MIXING_TABLE[210] == 149 && MIXING_TABLE[211] == 139
    ensures MIXING_TABLE[212] == 227 && MIXING_TABLE[213] == 99 && MIXING_TABLE[214] == 232 && MIXING_TABLE[215] == 109
    ensures MIXING_TABLE[216] == 233 && MIXING_TABLE[217] == 203 && MIXING_TABLE[218] == 213 && MIXING_TABLE[219] == 254
    ensures MIXING_TABLE[220] == 59 && MIXING_TABLE[221] == 0 && MIXING_TABLE[222] == 29 && MIXING_TABLE[223] == 57
    ensures MIXING_TABLE[224] == 242 && MIXING_TABLE[225] == 239 && MIXING_TABLE[226] == 183 && MIXING_TABLE[227] == 14
    ensures MIXING_TABLE[228] == 102 && MIXING_TABLE[229] == 88 && MIXING_TABLE[230] == 208 && MIXING_TABLE[231] == 228
    ensures MIXING_TABLE[232] == 166 && MIXING_TABLE[233] == 119 && MIXING_TABLE[234] == 114 && MIXING_TABLE[235] == 248
    ensures MIXING_TABLE[236] == 235 && MIXING_TABLE[237] == 117 && MIXING_TABLE[238] == 75 && MIXING_TABLE[239] == 10
    ensures MIXING_TABLE[240] == 49 && MIXING_TABLE[241] == 68 && MIXING_TABLE[242] == 80 && MIXING_TABLE[243] == 180
    ensures MIXING_TABLE[244] == 143 && MIXING_TABLE[245] == 237 && MIXING_TABLE[246] == 31 && MIXING_TABLE[247] == 26
    ensures MIXING_TABLE[248] == 219 && MIXING_TABLE[249] == 153 && MIXING_TABLE[250] == 141 && MIXING_TABLE[251] == 51
    ensures MIXING_TABLE[252] == 159 && MIXING_TABLE[253] == 17 && MIXING_TABLE[254] == 131 && MIXING_TABLE[255] == 20
  {
    Lookups0(); Lookups1(); Lookups2(); Lookups3();
    Lookups4(); Lookups5(); Lookups6(); Lookups7();
    Lookups8(); Lookups9(); Lookups10(); Lookups11();
    Lookups12(); Lookups13(); Lookups14(); Lookups15();
    hide MIXING_TABLE;
  }

  // ----- padding and checksum -----

  const ZERO := Row(0, 0, 0, 0, 0, 0, 0, 0, 0, 0, 0, 0, 0, 0, 0, 0)
  const P0 := Row(97, 98, 99, 100, 101, 102, 103, 104, 105, 106, 107, 108, 109, 110, 111, 112)
  const P1 := Row(113, 114, 115, 116, 117, 118, 119, 120, 121, 122, 6, 6, 6, 6, 6, 6)
  const K0 := Row(25, 226, 157, 153, 159, 153, 131, 248, 96, 84, 122, 115, 130, 235, 100, 192)
  const K1 := Row(74, 66, 211, 163, 119, 183, 233, 152, 143, 185, 40, 150, 153, 228, 211, 163)
  lemma Sum0First()
    ensures SummedFirst(MIXING_TABLE, P0, ZERO, 0, K0)
  {
    Lookups();
    hide MIXING_TABLE;
  }

  lemma Sum0Last()
    ensures SummedLast(MIXING_TABLE, P0, ZERO, K0)
  {
    Lookups();
    hide MIXING_TABLE;
  }

  lemma Sum1First()
    ensures SummedFirst(MIXING_TABLE, P1, K0, K0.a15, K1)
  {
    assert Xor8(113, 192) == 177 && Xor8(114, 74) == 56 && Xor8(115, 66) == 49 && Xor8(116, 211) == 167;
    assert Xor8(117, 163) == 214 && Xor8(118, 119) == 1 && Xor8(119, 183) == 192 && Xor8(120, 233) == 145;
    Lookups();
    hide MIXING_TABLE;
  }

  lemma Sum1Last()
    ensures SummedLast(MIXING_TABLE, P1, K0, K1)
  {
    assert Xor8(121, 152) == 225 && Xor8(122, 143) == 245 && Xor8(6, 185) == 191 && Xor8(6, 40) == 46;
    assert Xor8(6, 150) == 144 && Xor8(6, 153) == 159 && Xor8(6, 228) == 226 && Xor8(6, 211) == 213;
    Lookups();
    hide MIXING_TABLE;
  }

  lemma NothingSummed(s: Table)
    ensures ChecksumOf(s, []) == Checksum(RowBytes(ZERO), 0)
  {
  }

  /** The checksum after n more bytes of a row. */
  function PartSummed(c: Row, d: Row, n: nat): (r: Bytes)
    requires n <= 16
    ensures |r| == 16
  {
    RowBytes(d)[..n] + RowBytes(c)[n..]
  }

  lemma {:induction false} SumIs(s: Table, before: Bytes, m: Row, c: Row, l: Byte, d: Row, n: nat)
    requires |before| % 16 == 0 && ChecksumOf(s, before) == Checksum(RowBytes(c), l) && Summed(s, m, c, l, d) && n <= 16
    ensures ChecksumOf(s, before + RowBytes(m)[..n])
         == Checksum(PartSummed(c, d, n), if n == 0 then l else RowBytes(d)[n - 1])
  {
    hide ChecksumOf, RowBytes, Summed, Xor8;
    if n == 0 {
      assert before + RowBytes(m)[..0] == before && PartSummed(c, d, 0) == RowBytes(c);
    } else {
      SumIs(s, before, m, c, l, d, n - 1);
      var part := before + RowBytes(m)[..n - 1];
      assert before + RowBytes(m)[..n] == part + [RowBytes(m)[n - 1]];
      ChecksumAppend(s, part, RowBytes(m)[n - 1]);
      RowSummed(s, m, c, l, d, n - 1);
      Offset(|before|, n - 1);
      PartGrows(c, d, n);
      hide PartSummed;
    }
  }

  lemma PartGrows(c: Row, d: Row, n: nat)
    requires 0 < n <= 16
    ensures PartSummed(c, d, n) == PartSummed(c, d, n - 1)[n - 1 := RowBytes(d)[n - 1]]
    ensures PartSummed(c, d, n - 1)[n - 1] == RowBytes(c)[n - 1]
  {
    hide RowBytes;
  }

  lemma RowSummed(s: Table, m: Row, c: Row, l: Byte, d: Row, i: nat)
    requires Summed(s, m, c, l, d) && i < 16
    ensures RowBytes(d)[i]
         == Xor8(RowBytes(c)[i], s[Xor8(RowBytes(m)[i], if i == 0 then l else RowBytes(d)[i - 1])])
  {
    hide Xor8;
  }

  lemma WholeSum(s: Table, before: Bytes, m: Row, c: Row, l: Byte, d: Row)
    requires |before| % 16 == 0 && ChecksumOf(s, before) == Checksum(RowBytes(c), l) && Summed(s, m, c, l, d)
    ensures ChecksumOf(s, before + RowBytes(m)) == Checksum(RowBytes(d), d.a15)
  {
    LastOf(d);
    hide ChecksumOf, Summed, RowBytes;
    SumIs(s, before, m, c, l, d, 16);
    assert RowBytes(m)[..16] == RowBytes(m) && PartSummed(c, d, 16) == RowBytes(d);
  }

  lemma LastOf(d: Row)
    ensures RowBytes(d)[15] == d.a15
  {
  }

  lemma MessageSum()
    ensures ChecksumOf(MIXING_TABLE, RowBytes(P0) + RowBytes(P1)).c == RowBytes(K1)
  {
    Sum0First();
    Sum0Last();
    Sum1First();
    Sum1Last();
    NothingSummed(MIXING_TABLE);
    hide SummedFirst, SummedLast, MIXING_TABLE, P0, P1, K0, K1, ZERO, ChecksumOf, RowBytes;
    WholeSum(MIXING_TABLE, [], P0, ZERO, 0, K0);
    assert [] + RowBytes(P0) == RowBytes(P0);
    WholeSum(MIXING_TABLE, RowBytes(P0), P1, K0, K0.a15, K1);
  }

  // ----- block 1 -----

  const A0 := Buffer(Row(0, 0, 0, 0, 0, 0, 0, 0, 0, 0, 0, 0, 0, 0, 0, 0),
    Row(97, 98, 99, 100, 101, 102, 103, 104, 105, 106, 107, 108, 109, 110, 111, 112),
    Row(97, 98, 99, 100, 101, 102, 103, 104, 105, 106, 107, 108, 109, 110, 111, 112))
  const A1 := Buffer(Row(41, 66, 121, 252, 159, 15, 19, 243, 180, 133, 113, 184, 211, 139, 101, 165),
    Row(48, 220, 88, 81, 26, 77, 69, 218, 188, 43, 115, 190, 32, 112, 32, 110),
    Row(203, 106, 241, 32, 123, 132, 3, 161, 46, 143, 105, 50, 169, 50, 171, 190))
  const A2 := Buffer(Row(100, 10, 45, 235, 103, 222, 14, 245, 89, 187, 133, 201, 50, 79, 68, 176),
    Row(28, 96, 167, 107, 48, 243, 241, 158, 194, 28, 207, 244, 175, 86, 18, 107),
    Row(225, 133, 128, 101, 222, 153, 69, 19, 221, 143, 107, 24, 49, 124, 55, 247))
  const A3 := Buffer(Row(191, 88, 24, 115, 181, 246, 17, 82, 4, 25, 22, 186, 255, 91, 163, 147),
    Row(177, 51, 113, 211, 187, 7, 240, 175, 228, 122, 164, 41, 237, 35, 46, 142),
    Row(73, 71, 191, 55, 151, 111, 131, 74, 205, 50, 175, 62, 223, 69, 133, 134))
  const A4 := Buffer(Row(57, 163, 59, 253, 164, 43, 9, 100, 76, 18, 19, 73, 61, 116, 53, 13),
    Row(65, 91, 150, 106, 41, 69, 66, 214, 12, 150, 29, 101, 72, 183, 39, 152),
    Row(85, 215, 210, 162, 52, 181, 171, 132, 169, 110, 5, 230, 15, 86, 183, 143))
  const A5 := Buffer(Row(28, 31, 241, 185, 123, 201, 232, 194, 123, 240, 34, 30, 191, 38, 213, 110),
    Row(235, 163, 181, 66, 80, 197, 131, 143, 14, 144, 6, 25, 219, 73, 229, 192),
    Row(63, 173, 23, 46, 209, 61, 132, 224, 91, 137, 94, 113, 183, 95, 180, 10))
  const A6 := Buffer(Row(26, 52, 43, 161, 60, 114, 208, 186, 182, 116, 180, 155, 214, 206, 100, 38),
    Row(11, 2, 246, 93, 167, 255, 151, 121, 242, 192, 108, 181, 243, 253, 244, 79),
    Row(30, 47, 5, 246, 206, 140, 98, 208, 35, 181, 118, 12, 91, 184, 103, 219))
  const A7 := Buffer(Row(232, 146, 14, 167, 6, 14, 214, 82, 235, 140, 82, 198, 125, 186, 169, 122),
    Row(96, 253, 231, 185, 120, 137, 204, 117, 86, 242, 60, 14, 245, 16, 150, 246),
    Row(1, 1, 43, 238, 133, 253, 115, 2, 96, 74, 102, 185, 132, 220, 92, 100))
  const A8 := Buffer(Row(122, 249, 151, 81, 121, 242, 134, 213, 136, 10, 6, 186, 176, 150, 16, 24),
    Row(248, 38, 7, 184, 171, 71, 243, 193, 138, 61, 19, 253, 228, 118, 235, 14),
    Row(7, 0, 2, 173, 64, 84, 41, 64, 201, 171, 168, 122, 239, 214, 180, 225))
  const A9 := Buffer(Row(220, 194, 160, 4, 219, 12, 106, 71, 183, 3, 207, 240, 129, 11, 177, 75),
    Row(113, 158, 121, 68, 190, 10, 167, 251, 185, 226, 164, 32, 250, 251, 216, 231),
    Row(227, 14, 4, 15, 83, 206, 152, 92, 118, 214, 64, 211, 100, 158, 202, 154))
  const A10 := Buffer(Row(127, 51, 118, 121, 39, 26, 65, 47, 165, 82, 146, 213, 226, 188, 240, 122),
    Row(26, 181, 81, 59, 48, 180, 34, 172, 3, 43, 188, 97, 227, 245, 53, 121),
    Row(31, 196, 104, 216, 186, 3, 81, 35, 74, 198, 235, 43, 124, 2, 137, 193))
  const A11 := Buffer(Row(4, 145, 22, 10, 115, 200, 101, 138, 106, 192, 248, 14, 228, 218, 37, 174),
    Row(240, 132, 53, 165, 97, 173, 231, 72, 151, 221, 188, 32, 253, 228, 83, 227),
    Row(17, 99, 219, 38, 90, 207, 27, 250, 199, 60, 80, 171, 178, 15, 154, 160))
  const A12 := Buffer(Row(253, 128, 83, 144, 104, 31, 175, 172, 208, 184, 43, 22, 151, 44, 175, 136),
    Row(118, 249, 172, 31, 171, 99, 84, 18, 146, 248, 103, 241, 185, 59, 221, 227),
    Row(31, 169, 135, 6, 38, 47, 9, 204, 203, 52, 138, 100, 250, 130, 234, 210))
  const A13 := Buffer(Row(253, 145, 51, 70, 111, 217, 100, 228, 182, 60, 144, 13, 103, 253, 190, 197),
    Row(183, 240, 157, 95, 168, 160, 1, 60, 41, 186, 170, 8, 132, 95, 222, 254),
    Row(156, 157, 199, 252, 185, 240, 56, 108, 103, 229, 210, 241, 190, 207, 160, 135))
  const A14 := Buffer(Row(80, 17, 148, 232, 201, 56, 196, 136, 48, 130, 224, 255, 115, 47, 172, 127),
    Row(70, 247, 135, 127, 89, 158, 127, 205, 148, 20, 106, 154, 229, 7, 223, 199),
    Row(102, 40, 160, 169, 229, 168, 251, 95, 100, 173, 23, 125, 202, 180, 37, 83))
  const A15 := Buffer(Row(175, 55, 221, 232, 111, 254, 71, 183, 57, 121, 28, 67, 226, 152, 176, 83),
    Row(220, 204, 139, 26, 114, 166, 208, 181, 188, 85, 250, 23, 105, 89, 225, 40),
    Row(1, 6, 220, 146, 192, 194, 204, 83, 254, 46, 242, 45, 221, 180, 160, 6))
  const A16 := Buffer(Row(111, 241, 153, 174, 133, 143, 69, 5, 225, 150, 165, 18, 231, 124, 44, 217),
    Row(23, 64, 34, 77, 80, 38, 48, 11, 29, 25, 105, 73, 171, 151, 23, 164),
    Row(220, 61, 243, 38, 32, 220, 247, 73, 60, 149, 66, 84, 135, 148, 14, 0))
  const A17 := Buffer(Row(124, 109, 207, 228, 227, 129, 216, 236, 10, 194, 146, 55, 174, 150, 149, 105),
    Row(73, 130, 82, 16, 50, 226, 135, 43, 5, 193, 181, 97, 178, 154, 118, 217),
    Row(23, 177, 160, 115, 242, 140, 17, 238, 119, 35, 126, 80, 7, 149, 190, 77))
  const A18 := Buffer(Row(139, 8, 242, 180, 102, 52, 2, 175, 44, 72, 6, 75, 39, 128, 208, 17),
    Row(238, 201, 179, 126, 54, 60, 60, 144, 30, 67, 36, 156, 134, 29, 58, 44),
    Row(157, 241, 228, 21, 53, 18, 20, 46, 146, 6, 2, 19, 244, 26, 149, 253))

  lemma A0X() ensures Swept(MIXING_TABLE, A0.x, 0, A1.x) { Lookups(); hide MIXING_TABLE; }
  lemma A0Y() ensures Swept(MIXING_TABLE, A0.y, A1.x.a15, A1.y) { Lookups(); hide MIXING_TABLE; }
  lemma A0Z() ensures Swept(MIXING_TABLE, A0.z, A1.y.a15, A1.z) { Lookups(); hide MIXING_TABLE; }
  lemma A1X() ensures Swept(MIXING_TABLE, A1.x, 190, A2.x) { Lookups(); hide MIXING_TABLE; }
  lemma A1Y() ensures Swept(MIXING_TABLE, A1.y, A2.x.a15, A2.y) { Lookups(); hide MIXING_TABLE; }
  lemma A1Z() ensures Swept(MIXING_TABLE, A1.z, A2.y.a15, A2.z) { Lookups(); hide MIXING_TABLE; }
  lemma A2X() ensures Swept(MIXING_TABLE, A2.x, 248, A3.x) { Lookups(); hide MIXING_TABLE; }
  lemma A2Y() ensures Swept(MIXING_TABLE, A2.y, A3.x.a15, A3.y) { Lookups(); hide MIXING_TABLE; }
  lemma A2Z() ensures Swept(MIXING_TABLE, A2.z, A3.y.a15, A3.z) { Lookups(); hide MIXING_TABLE; }
  lemma A3X() ensures Swept(MIXING_TABLE, A3.x, 136, A4.x) { Lookups(); hide MIXING_TABLE; }
  lemma A3Y() ensures Swept(MIXING_TABLE, A3.y, A4.x.a15, A4.y) { Lookups(); hide MIXING_TABLE; }
  lemma A3Z() ensures Swept(MIXING_TABLE, A3.z, A4.y.a15, A4.z) { Lookups(); hide MIXING_TABLE; }
  lemma A4X() ensures Swept(MIXING_TABLE, A4.x, 146, A5.x) { Lookups(); hide MIXING_TABLE; }
  lemma A4Y() ensures Swept(MIXING_TABLE, A4.y, A5.x.a15, A5.y) { Lookups(); hide MIXING_TABLE; }
  lemma A4Z() ensures Swept(MIXING_TABLE, A4.z, A5.y.a15, A5.z) { Lookups(); hide MIXING_TABLE; }
  lemma A5X() ensures Swept(MIXING_TABLE, A5.x, 14, A6.x) { Lookups(); hide MIXING_TABLE; }
  lemma A5Y() ensures Swept(MIXING_TABLE, A5.y, A6.x.a15, A6.y) { Lookups(); hide MIXING_TABLE; }
  lemma A5Z() ensures Swept(MIXING_TABLE, A5.z, A6.y.a15, A6.z) { Lookups(); hide MIXING_TABLE; }
  lemma A6X() ensures Swept(MIXING_TABLE, A6.x, 224, A7.x) { Lookups(); hide MIXING_TABLE; }
  lemma A6Y() ensures Swept(MIXING_TABLE, A6.y, A7.x.a15, A7.y) { Lookups(); hide MIXING_TABLE; }
  lemma A6Z() ensures Swept(MIXING_TABLE, A6.z, A7.y.a15, A7.z) { Lookups(); hide MIXING_TABLE; }
  lemma A7X() ensures Swept(MIXING_TABLE, A7.x, 106, A8.x) { Lookups(); hide MIXING_TABLE; }
  lemma A7Y() ensures Swept(MIXING_TABLE, A7.y, A8.x.a15, A8.y) { Lookups(); hide MIXING_TABLE; }
  lemma A7Z() ensures Swept(MIXING_TABLE, A7.z, A8.y.a15, A8.z) { Lookups(); hide MIXING_TABLE; }
  lemma A8X() ensures Swept(MIXING_TABLE, A8.x, 232, A9.x) { Lookups(); hide MIXING_TABLE; }
  lemma A8Y() ensures Swept(MIXING_TABLE, A8.y, A9.x.a15, A9.y) { Lookups(); hide MIXING_TABLE; }
  lemma A8Z() ensures Swept(MIXING_TABLE, A8.z, A9.y.a15, A9.z) { Lookups(); hide MIXING_TABLE; }
  lemma A9X() ensures Swept(MIXING_TABLE, A9.x, 162, A10.x) { Lookups(); hide MIXING_TABLE; }
  lemma A9Y() ensures Swept(MIXING_TABLE, A9.y, A10.x.a15, A10.y) { Lookups(); hide MIXING_TABLE; }
  lemma A9Z() ensures Swept(MIXING_TABLE, A9.z, A10.y.a15, A10.z) { Lookups(); hide MIXING_TABLE; }
  lemma A10X() ensures Swept(MIXING_TABLE, A10.x, 202, A11.x) { Lookups(); hide MIXING_TABLE; }
  lemma A10Y() ensures Swept(MIXING_TABLE, A10.y, A11.x.a15, A11.y) { Lookups(); hide MIXING_TABLE; }
  lemma A10Z() ensures Swept(MIXING_TABLE, A10.z, A11.y.a15, A11.z) { Lookups(); hide MIXING_TABLE; }
  lemma A11X() ensures Swept(MIXING_TABLE, A11.x, 170, A12.x) { Lookups(); hide MIXING_TABLE; }
  lemma A11Y() ensures Swept(MIXING_TABLE, A11.y, A12.x.a15, A12.y) { Lookups(); hide MIXING_TABLE; }
  lemma A11Z() ensures Swept(MIXING_TABLE, A11.z, A12.y.a15, A12.z) { Lookups(); hide MIXING_TABLE; }
  lemma A12X() ensures Swept(MIXING_TABLE, A12.x, 221, A13.x) { Lookups(); hide MIXING_TABLE; }
  lemma A12Y() ensures Swept(MIXING_TABLE, A12.y, A13.x.a15, A13.y) { Lookups(); hide MIXING_TABLE; }
  lemma A12Z() ensures Swept(MIXING_TABLE, A12.z, A13.y.a15, A13.z) { Lookups(); hide MIXING_TABLE; }
  lemma A13X() ensures Swept(MIXING_TABLE, A13.x, 147, A14.x) { Lookups(); hide MIXING_TABLE; }
  lemma A13Y() ensures Swept(MIXING_TABLE, A13.y, A14.x.a15, A14.y) { Lookups(); hide MIXING_TABLE; }
  lemma A13Z() ensures Swept(MIXING_TABLE, A13.z, A14.y.a15, A14.z) { Lookups(); hide MIXING_TABLE; }
  lemma A14X() ensures Swept(MIXING_TABLE, A14.x, 96, A15.x) { Lookups(); hide MIXING_TABLE; }
  lemma A14Y() ensures Swept(MIXING_TABLE, A14.y, A15.x.a15, A15.y) { Lookups(); hide MIXING_TABLE; }
  lemma A14Z() ensures Swept(MIXING_TABLE, A14.z, A15.y.a15, A15.z) { Lookups(); hide MIXING_TABLE; }
  lemma A15X() ensures Swept(MIXING_TABLE, A15.x, 20, A16.x) { Lookups(); hide MIXING_TABLE; }
  lemma A15Y() ensures Swept(MIXING_TABLE, A15.y, A16.x.a15, A16.y) { Lookups(); hide MIXING_TABLE; }
  lemma A15Z() ensures Swept(MIXING_TABLE, A15.z, A16.y.a15, A16.z) { Lookups(); hide MIXING_TABLE; }
  lemma A16X() ensures Swept(MIXING_TABLE, A16.x, 15, A17.x) { Lookups(); hide MIXING_TABLE; }
  lemma A16Y() ensures Swept(MIXING_TABLE, A16.y, A17.x.a15, A17.y) { Lookups(); hide MIXING_TABLE; }
  lemma A16Z() ensures Swept(MIXING_TABLE, A16.z, A17.y.a15, A17.z) { Lookups(); hide MIXING_TABLE; }
  lemma A17X() ensures Swept(MIXING_TABLE, A17.x, 93, A18.x) { Lookups(); hide MIXING_TABLE; }
  lemma A17Y() ensures Swept(MIXING_TABLE, A17.y, A18.x.a15, A18.y) { Lookups(); hide MIXING_TABLE; }
  lemma A17Z() ensures Swept(MIXING_TABLE, A17.z, A18.y.a15, A18.z) { Lookups(); hide MIXING_TABLE; }

  lemma Block1Starts()
    ensures Xored(A0.x, A0.y, A0.z) && A0.x == ZERO && A0.y == P0
  {
  }

  /** What each round but the first is entered with. */
  lemma Block1Entries()
    ensures (A1.z.a15 + 0) % 256 == 190 && (A2.z.a15 + 1) % 256 == 248 && (A3.z.a15 + 2) % 256 == 136
    ensures (A4.z.a15 + 3) % 256 == 146 && (A5.z.a15 + 4) % 256 == 14 && (A6.z.a15 + 5) % 256 == 224
    ensures (A7.z.a15 + 6) % 256 == 106 && (A8.z.a15 + 7) % 256 == 232 && (A9.z.a15 + 8) % 256 == 162
    ensures (A10.z.a15 + 9) % 256 == 202 && (A11.z.a15 + 10) % 256 == 170 && (A12.z.a15 + 11) % 256 == 221
    ensures (A13.z.a15 + 12) % 256 == 147 && (A14.z.a15 + 13) % 256 == 96 && (A15.z.a15 + 14) % 256 == 20
    ensures (A16.z.a15 + 15) % 256 == 15 && (A17.z.a15 + 16) % 256 == 93
  {
  }

  lemma Block1()
    ensures Compress(MIXING_TABLE, RowBytes(ZERO), RowBytes(P0)) == RowBytes(A18.x)
  {
    hide *;
    Block1Starts();
    Block1Entries();
    var s, start := MIXING_TABLE, Flat(A0);
    BlockStart(s, A0);
    A0X(); A0Y(); A0Z(); TurnIs(s, A0, 0, A1); RoundIs(s, start, 0, A0, 0, A1);
    A1X(); A1Y(); A1Z(); TurnIs(s, A1, 190, A2); RoundIs(s, start, 1, A1, 190, A2);
    A2X(); A2Y(); A2Z(); TurnIs(s, A2, 248, A3); RoundIs(s, start, 2, A2, 248, A3);
    A3X(); A3Y(); A3Z(); TurnIs(s, A3, 136, A4); RoundIs(s, start, 3, A3, 136, A4);
    A4X(); A4Y(); A4Z(); TurnIs(s, A4, 146, A5); RoundIs(s, start, 4, A4, 146, A5);
    A5X(); A5Y(); A5Z(); TurnIs(s, A5, 14, A6); RoundIs(s, start, 5, A5, 14, A6);
    A6X(); A6Y(); A6Z(); TurnIs(s, A6, 224, A7); RoundIs(s, start, 6, A6, 224, A7);
    A7X(); A7Y(); A7Z(); TurnIs(s, A7, 106, A8); RoundIs(s, start, 7, A7, 106, A8);
    A8X(); A8Y(); A8Z(); TurnIs(s, A8, 232, A9); RoundIs(s, start, 8, A8, 232, A9);
    A9X(); A9Y(); A9Z(); TurnIs(s, A9, 162, A10); RoundIs(s, start, 9, A9, 162, A10);
    A10X(); A10Y(); A10Z(); TurnIs(s, A10, 202, A11); RoundIs(s, start, 10, A10, 202, A11);
    A11X(); A11Y(); A11Z(); TurnIs(s, A11, 170, A12); RoundIs(s, start, 11, A11, 170, A12);
    A12X(); A12Y(); A12Z(); TurnIs(s, A12, 221, A13); RoundIs(s, start, 12, A12, 221, A13);
    A13X(); A13Y(); A13Z(); TurnIs(s, A13, 147, A14); RoundIs(s, start, 13, A13, 147, A14);
    A14X(); A14Y(); A14Z(); TurnIs(s, A14, 96, A15); RoundIs(s, start, 14, A14, 96, A15);
    A15X(); A15Y(); A15Z(); TurnIs(s, A15, 20, A16); RoundIs(s, start, 15, A15, 20, A16);
    A16X(); A16Y(); A16Z(); TurnIs(s, A16, 15, A17); RoundIs(s, start, 16, A16, 15, A17);
    A17X(); A17Y(); A17Z(); TurnIs(s, A17, 93, A18); RoundIs(s, start, 17, A17, 93, A18);
    BlockEnd(s, ZERO, P0, start, A18, (A18.z.a15 + 17) % 256);
  }

  // ----- block 2 -----

  const B0 := Buffer(Row(139, 8, 242, 180, 102, 52, 2, 175, 44, 72, 6, 75, 39, 128, 208, 17),
    Row(113, 114, 115, 116, 117, 118, 119, 120, 121, 122, 6, 6, 6, 6, 6, 6),
    Row(250, 122, 129, 192, 19, 66, 117, 215, 85, 50, 0, 77, 33, 134, 214, 23))
  const B1 := Buffer(Row(162, 171, 60, 15, 117, 144, 25, 60, 151, 190, 75, 194, 16, 226, 103, 192),
    Row(27, 171, 189, 245, 152, 106, 229, 32, 103, 171, 200, 34, 81, 121, 250, 139),
    Row(159, 117, 37, 20, 211, 201, 148, 121, 169, 110, 170, 180, 164, 91, 49, 89))
  const B2 := Buffer(Row(156, 159, 51, 217, 190, 221, 25, 175, 177, 237, 62, 44, 154, 131, 62, 46),
    Row(254, 40, 218, 32, 134, 237, 144, 59, 233, 220, 243, 150, 232, 223, 195, 67),
    Row(14, 115, 247, 14, 213, 170, 109, 47, 187, 154, 203, 188, 229, 3, 248, 130))
  const B3 := Buffer(Row(197, 94, 164, 4, 28, 97, 0, 134, 54, 51, 232, 138, 85, 19, 205, 147),
    Row(83, 178, 215, 77, 164, 48, 46, 222, 244, 83, 105, 200, 204, 211, 72, 215),
    Row(99, 192, 157, 78, 138, 101, 200, 11, 26, 177, 152, 160, 176, 47, 234, 240))
  const B4 := Buffer(Row(149, 238, 239, 14, 26, 74, 16, 228, 80, 179, 134, 13, 165, 66, 180, 22),
    Row(32, 172, 109, 27, 125, 68, 59, 80, 116, 197, 168, 11, 109, 133, 57, 44),
    Row(233, 183, 148, 224, 120, 19, 59, 133, 107, 155, 241, 228, 214, 199, 16, 146))
  const B5 := Buffer(Row(37, 58, 26, 37, 206, 251, 35, 216, 185, 108, 42, 98, 149, 242, 228, 112),
    Row(111, 106, 255, 15, 110, 238, 112, 31, 190, 136, 46, 238, 38, 101, 156, 24),
    Row(113, 15, 135, 192, 18, 22, 72, 17, 204, 151, 7, 229, 142, 111, 214, 122))
  const B6 := Buffer(Row(33, 161, 93, 210, 91, 28, 159, 215, 212, 143, 40, 5, 77, 208, 156, 68),
    Row(122, 1, 209, 135, 78, 177, 35, 35, 130, 248, 245, 3, 239, 111, 90, 212),
    Row(146, 42, 232, 102, 167, 44, 194, 38, 44, 29, 75, 108, 34, 56, 118, 7))
  const B7 := Buffer(Row(205, 28, 225, 61, 116, 138, 80, 87, 243, 59, 166, 170, 180, 85, 12, 168),
    Row(185, 222, 204, 139, 43, 169, 127, 210, 23, 116, 99, 176, 195, 167, 96, 43),
    Row(138, 229, 176, 74, 183, 37, 22, 85, 188, 92, 244, 227, 44, 178, 123, 229))
  const B8 := Buffer(Row(53, 130, 145, 93, 131, 211, 219, 169, 175, 29, 234, 216, 93, 162, 175, 142),
    Row(17, 121, 48, 53, 181, 129, 226, 101, 178, 121, 159, 191, 145, 199, 154, 74),
    Row(154, 132, 212, 169, 235, 221, 22, 38, 92, 227, 250, 110, 134, 53, 229, 189))
  const B9 := Buffer(Row(89, 188, 208, 37, 87, 244, 84, 243, 27, 196, 134, 95, 94, 53, 49, 192),
    Row(123, 155, 89, 11, 20, 65, 138, 170, 75, 240, 174, 85, 1, 233, 237, 63),
    Row(224, 118, 169, 245, 6, 161, 81, 89, 98, 211, 113, 214, 110, 159, 234, 207))
  const B10 := Buffer(Row(52, 102, 101, 128, 18, 241, 16, 145, 123, 38, 102, 234, 44, 191, 99, 115),
    Row(169, 199, 163, 40, 115, 147, 39, 188, 10, 164, 115, 135, 33, 114, 213, 92),
    Row(95, 117, 13, 5, 222, 188, 16, 59, 236, 56, 209, 94, 249, 6, 150, 118))
  const B11 := Buffer(Row(197, 167, 95, 131, 75, 120, 102, 36, 134, 161, 33, 113, 148, 17, 196, 31),
    Row(99, 116, 53, 182, 247, 137, 124, 32, 20, 100, 59, 9, 23, 254, 86, 110),
    Row(245, 152, 17, 162, 125, 200, 52, 225, 3, 241, 149, 238, 178, 11, 55, 63))
  const B12 := Buffer(Row(7, 166, 240, 178, 70, 127, 151, 210, 19, 82, 124, 237, 225, 254, 71, 32),
    Row(125, 0, 28, 10, 163, 170, 133, 81, 107, 78, 100, 65, 127, 15, 69, 220),
    Row(206, 41, 83, 56, 221, 200, 16, 131, 90, 61, 186, 35, 142, 163, 20, 255))
  const B13 := Buffer(Row(83, 60, 75, 59, 200, 91, 112, 157, 83, 200, 88, 216, 8, 195, 143, 34),
    Row(42, 111, 218, 223, 154, 203, 141, 124, 247, 84, 62, 175, 89, 49, 11, 125),
    Row(186, 228, 53, 166, 114, 240, 33, 24, 194, 10, 238, 104, 89, 157, 84, 165))
  const B14 := Buffer(Row(0, 21, 140, 221, 200, 127, 129, 0, 122, 163, 123, 58, 253, 210, 26, 9),
    Row(28, 211, 81, 160, 207, 129, 16, 30, 117, 240, 15, 188, 24, 169, 87, 90),
    Row(118, 153, 115, 116, 228, 150, 152, 4, 96, 245, 3, 161, 30, 31, 158, 219))
  const B15 := Buffer(Row(166, 186, 65, 181, 224, 141, 172, 186, 183, 170, 130, 74, 237, 167, 32, 23),
    Row(144, 200, 117, 4, 109, 215, 125, 106, 231, 20, 207, 246, 7, 168, 148, 244),
    Row(249, 0, 90, 184, 55, 223, 161, 67, 241, 177, 80, 33, 133, 110, 52, 1))
  const B16 := Buffer(Row(181, 146, 100, 253, 241, 201, 77, 152, 171, 100, 202, 49, 163, 132, 68, 2),
    Row(211, 67, 228, 98, 93, 32, 99, 217, 44, 158, 177, 165, 86, 154, 245, 25),
    Row(106, 146, 127, 73, 245, 50, 101, 230, 33, 42, 63, 91, 98, 94, 163, 34))
  const B17 := Buffer(Row(251, 161, 35, 193, 45, 222, 80, 24, 51, 178, 199, 203, 171, 74, 84, 88),
    Row(230, 147, 73, 160, 8, 29, 47, 203, 36, 99, 2, 230, 134, 29, 185, 198),
    Row(193, 78, 32, 87, 210, 167, 95, 229, 121, 214, 215, 54, 188, 31, 105, 124))
  const B18 := Buffer(Row(29, 237, 86, 243, 153, 152, 76, 19, 192, 216, 46, 46, 78, 21, 147, 245),
    Row(11, 50, 141, 141, 37, 201, 206, 122, 79, 66, 123, 4, 36, 224, 75, 79),
    Row(224, 188, 97, 78, 141, 138, 144, 254, 250, 91, 48, 136, 58, 234, 27, 165))

  lemma B0X() ensures Swept(MIXING_TABLE, B0.x, 0, B1.x) { Lookups(); hide MIXING_TABLE; }
  lemma B0Y() ensures Swept(MIXING_TABLE, B0.y, B1.x.a15, B1.y) { Lookups(); hide MIXING_TABLE; }
  lemma B0Z() ensures Swept(MIXING_TABLE, B0.z, B1.y.a15, B1.z) { Lookups(); hide MIXING_TABLE; }
  lemma B1X() ensures Swept(MIXING_TABLE, B1.x, 89, B2.x) { Lookups(); hide MIXING_TABLE; }
  lemma B1Y() ensures Swept(MIXING_TABLE, B1.y, B2.x.a15, B2.y) { Lookups(); hide MIXING_TABLE; }
  lemma B1Z() ensures Swept(MIXING_TABLE, B1.z, B2.y.a15, B2.z) { Lookups(); hide MIXING_TABLE; }
  lemma B2X() ensures Swept(MIXING_TABLE, B2.x, 131, B3.x) { Lookups(); hide MIXING_TABLE; }
  lemma B2Y() ensures Swept(MIXING_TABLE, B2.y, B3.x.a15, B3.y) { Lookups(); hide MIXING_TABLE; }
  lemma B2Z() ensures Swept(MIXING_TABLE, B2.z, B3.y.a15, B3.z) { Lookups(); hide MIXING_TABLE; }
  lemma B3X() ensures Swept(MIXING_TABLE, B3.x, 242, B4.x) { Lookups(); hide MIXING_TABLE; }
  lemma B3Y() ensures Swept(MIXING_TABLE, B3.y, B4.x.a15, B4.y) { Lookups(); hide MIXING_TABLE; }
  lemma B3Z() ensures Swept(MIXING_TABLE, B3.z, B4.y.a15, B4.z) { Lookups(); hide MIXING_TABLE; }
  lemma B4X() ensures Swept(MIXING_TABLE, B4.x, 149, B5.x) { Lookups(); hide MIXING_TABLE; }
  lemma B4Y() ensures Swept(MIXING_TABLE, B4.y, B5.x.a15, B5.y) { Lookups(); hide MIXING_TABLE; }
  lemma B4Z() ensures Swept(MIXING_TABLE, B4.z, B5.y.a15, B5.z) { Lookups(); hide MIXING_TABLE; }
  lemma B5X() ensures Swept(MIXING_TABLE, B5.x, 126, B6.x) { Lookups(); hide MIXING_TABLE; }
  lemma B5Y() ensures Swept(MIXING_TABLE, B5.y, B6.x.a15, B6.y) { Lookups(); hide MIXING_TABLE; }
  lemma B5Z() ensures Swept(MIXING_TABLE, B5.z, B6.y.a15, B6.z) { Lookups(); hide MIXING_TABLE; }
  lemma B6X() ensures Swept(MIXING_TABLE, B6.x, 12, B7.x) { Lookups(); hide MIXING_TABLE; }
  lemma B6Y() ensures Swept(MIXING_TABLE, B6.y, B7.x.a15, B7.y) { Lookups(); hide MIXING_TABLE; }
  lemma B6Z() ensures Swept(MIXING_TABLE, B6.z, B7.y.a15, B7.z) { Lookups(); hide MIXING_TABLE; }
  lemma B7X() ensures Swept(MIXING_TABLE, B7.x, 235, B8.x) { Lookups(); hide MIXING_TABLE; }
  lemma B7Y() ensures Swept(MIXING_TABLE, B7.y, B8.x.a15, B8.y) { Lookups(); hide MIXING_TABLE; }
  lemma B7Z() ensures Swept(MIXING_TABLE, B7.z, B8.y.a15, B8.z) { Lookups(); hide MIXING_TABLE; }
  lemma B8X() ensures Swept(MIXING_TABLE, B8.x, 196, B9.x) { Lookups(); hide MIXING_TABLE; }
  lemma B8Y() ensures Swept(MIXING_TABLE, B8.y, B9.x.a15, B9.y) { Lookups(); hide MIXING_TABLE; }
  lemma B8Z() ensures Swept(MIXING_TABLE, B8.z, B9.y.a15, B9.z) { Lookups(); hide MIXING_TABLE; }
  lemma B9X() ensures Swept(MIXING_TABLE, B9.x, 215, B10.x) { Lookups(); hide MIXING_TABLE; }
  lemma B9Y() ensures Swept(MIXING_TABLE, B9.y, B10.x.a15, B10.y) { Lookups(); hide MIXING_TABLE; }
  lemma B9Z() ensures Swept(MIXING_TABLE, B9.z, B10.y.a15, B10.z) { Lookups(); hide MIXING_TABLE; }
  lemma B10X() ensures Swept(MIXING_TABLE, B10.x, 127, B11.x) { Lookups(); hide MIXING_TABLE; }
  lemma B10Y() ensures Swept(MIXING_TABLE, B10.y, B11.x.a15, B11.y) { Lookups(); hide MIXING_TABLE; }
  lemma B10Z() ensures Swept(MIXING_TABLE, B10.z, B11.y.a15, B11.z) { Lookups(); hide MIXING_TABLE; }
  lemma B11X() ensures Swept(MIXING_TABLE, B11.x, 73, B12.x) { Lookups(); hide MIXING_TABLE; }
  lemma B11Y() ensures Swept(MIXING_TABLE, B11.y, B12.x.a15, B12.y) { Lookups(); hide MIXING_TABLE; }
  lemma B11Z() ensures Swept(MIXING_TABLE, B11.z, B12.y.a15, B12.z) { Lookups(); hide MIXING_TABLE; }
  lemma B12X() ensures Swept(MIXING_TABLE, B12.x, 10, B13.x) { Lookups(); hide MIXING_TABLE; }
  lemma B12Y() ensures Swept(MIXING_TABLE, B12.y, B13.x.a15, B13.y) { Lookups(); hide MIXING_TABLE; }
  lemma B12Z() ensures Swept(MIXING_TABLE, B12.z, B13.y.a15, B13.z) { Lookups(); hide MIXING_TABLE; }
  lemma B13X() ensures Swept(MIXING_TABLE, B13.x, 177, B14.x) { Lookups(); hide MIXING_TABLE; }
  lemma B13Y() ensures Swept(MIXING_TABLE, B13.y, B14.x.a15, B14.y) { Lookups(); hide MIXING_TABLE; }
  lemma B13Z() ensures Swept(MIXING_TABLE, B13.z, B14.y.a15, B14.z) { Lookups(); hide MIXING_TABLE; }
  lemma B14X() ensures Swept(MIXING_TABLE, B14.x, 232, B15.x) { Lookups(); hide MIXING_TABLE; }
  lemma B14Y() ensures Swept(MIXING_TABLE, B14.y, B15.x.a15, B15.y) { Lookups(); hide MIXING_TABLE; }
  lemma B14Z() ensures Swept(MIXING_TABLE, B14.z, B15.y.a15, B15.z) { Lookups(); hide MIXING_TABLE; }
  lemma B15X() ensures Swept(MIXING_TABLE, B15.x, 15, B16.x) { Lookups(); hide MIXING_TABLE; }
  lemma B15Y() ensures Swept(MIXING_TABLE, B15.y, B16.x.a15, B16.y) { Lookups(); hide MIXING_TABLE; }
  lemma B15Z() ensures Swept(MIXING_TABLE, B15.z, B16.y.a15, B16.z) { Lookups(); hide MIXING_TABLE; }
  lemma B16X() ensures Swept(MIXING_TABLE, B16.x, 49, B17.x) { Lookups(); hide MIXING_TABLE; }
  lemma B16Y() ensures Swept(MIXING_TABLE, B16.y, B17.x.a15, B17.y) { Lookups(); hide MIXING_TABLE; }
  lemma B16Z() ensures Swept(MIXING_TABLE, B16.z, B17.y.a15, B17.z) { Lookups(); hide MIXING_TABLE; }
  lemma B17X() ensures Swept(MIXING_TABLE, B17.x, 140, B18.x) { Lookups(); hide MIXING_TABLE; }
  lemma B17Y() ensures Swept(MIXING_TABLE, B17.y, B18.x.a15, B18.y) { Lookups(); hide MIXING_TABLE; }
  lemma B17Z() ensures Swept(MIXING_TABLE, B17.z, B18.y.a15, B18.z) { Lookups(); hide MIXING_TABLE; }

  lemma Block2Starts()
    ensures Xored(B0.x, B0.y, B0.z) && B0.x == A18.x && B0.y == P1
  {
  }

  /** What each round but the first is entered with. */
  lemma Block2Entries()
    ensures (B1.z.a15 + 0) % 256 == 89 && (B2.z.a15 + 1) % 256 == 131 && (B3.z.a15 + 2) % 256 == 242
    ensures (B4.z.a15 + 3) % 256 == 149 && (B5.z.a15 + 4) % 256 == 126 && (B6.z.a15 + 5) % 256 == 12
    ensures (B7.z.a15 + 6) % 256 == 235 && (B8.z.a15 + 7) % 256 == 196 && (B9.z.a15 + 8) % 256 == 215
    ensures (B10.z.a15 + 9) % 256 == 127 && (B11.z.a15 + 10) % 256 == 73 && (B12.z.a15 + 11) % 256 == 10
    ensures (B13.z.a15 + 12) % 256 == 177 && (B14.z.a15 + 13) % 256 == 232 && (B15.z.a15 + 14) % 256 == 15
    ensures (B16.z.a15 + 15) % 256 == 49 && (B17.z.a15 + 16) % 256 == 140
  {
  }

  lemma Block2()
    ensures Compress(MIXING_TABLE, RowBytes(A18.x), RowBytes(P1)) == RowBytes(B18.x)
  {
    hide *;
    Block2Starts();
    Block2Entries();
    var s, start := MIXING_TABLE, Flat(B0);
    BlockStart(s, B0);
    B0X(); B0Y(); B0Z(); TurnIs(s, B0, 0, B1); RoundIs(s, start, 0, B0, 0, B1);
    B1X(); B1Y(); B1Z(); TurnIs(s, B1, 89, B2); RoundIs(s, start, 1, B1, 89, B2);
    B2X(); B2Y(); B2Z(); TurnIs(s, B2, 131, B3); RoundIs(s, start, 2, B2, 131, B3);
    B3X(); B3Y(); B3Z(); TurnIs(s, B3, 242, B4); RoundIs(s, start, 3, B3, 242, B4);
    B4X(); B4Y(); B4Z(); TurnIs(s, B4, 149, B5); RoundIs(s, start, 4, B4, 149, B5);
    B5X(); B5Y(); B5Z(); TurnIs(s, B5, 126, B6); RoundIs(s, start, 5, B5, 126, B6);
    B6X(); B6Y(); B6Z(); TurnIs(s, B6, 12, B7); RoundIs(s, start, 6, B6, 12, B7);
    B7X(); B7Y(); B7Z(); TurnIs(s, B7, 235, B8); RoundIs(s, start, 7, B7, 235, B8);
    B8X(); B8Y(); B8Z(); TurnIs(s, B8, 196, B9); RoundIs(s, start, 8, B8, 196, B9);
    B9X(); B9Y(); B9Z(); TurnIs(s, B9, 215, B10); RoundIs(s, start, 9, B9, 215, B10);
    B10X(); B10Y(); B10Z(); TurnIs(s, B10, 127, B11); RoundIs(s, start, 10, B10, 127, B11);
    B11X(); B11Y(); B11Z(); TurnIs(s, B11, 73, B12); RoundIs(s, start, 11, B11, 73, B12);
    B12X(); B12Y(); B12Z(); TurnIs(s, B12, 10, B13); RoundIs(s, start, 12, B12, 10, B13);
    B13X(); B13Y(); B13Z(); TurnIs(s, B13, 177, B14); RoundIs(s, start, 13, B13, 177, B14);
    B14X(); B14Y(); B14Z(); TurnIs(s, B14, 232, B15); RoundIs(s, start, 14, B14, 232, B15);
    B15X(); B15Y(); B15Z(); TurnIs(s, B15, 15, B16); RoundIs(s, start, 15, B15, 15, B16);
    B16X(); B16Y(); B16Z(); TurnIs(s, B16, 49, B17); RoundIs(s, start, 16, B16, 49, B17);
    B17X(); B17Y(); B17Z(); TurnIs(s, B17, 140, B18); RoundIs(s, start, 17, B17, 140, B18);
    BlockEnd(s, A18.x, P1, start, B18, (B18.z.a15 + 17) % 256);
  }

  // ----- block 3 -----

  const C0 := Buffer(Row(29, 237, 86, 243, 153, 152, 76, 19, 192, 216, 46, 46, 78, 21, 147, 245),
    Row(74, 66, 211, 163, 119, 183, 233, 152, 143, 185, 40, 150, 153, 228, 211, 163),
    Row(87, 175, 133, 80, 238, 47, 165, 139, 79, 97, 6, 184, 215, 241, 64, 86))
  const C1 := Buffer(Row(52, 55, 31, 57, 98, 168, 143, 17, 103, 9, 24, 182, 202, 110, 57, 14),
    Row(76, 73, 17, 4, 213, 212, 10, 204, 131, 224, 218, 67, 8, 217, 24, 59),
    Row(217, 100, 205, 237, 155, 70, 162, 40, 40, 6, 122, 211, 92, 78, 31, 156))
  const C2 := Buffer(Row(0, 30, 157, 121, 158, 214, 103, 192, 13, 249, 129, 43, 210, 251, 10, 90),
    Row(128, 12, 253, 21, 18, 209, 130, 188, 194, 215, 183, 74, 24, 65, 112, 116),
    Row(79, 69, 127, 28, 39, 80, 34, 127, 217, 205, 199, 41, 30, 204, 19, 111))
  const C3 := Buffer(Row(79, 63, 231, 157, 222, 203, 111, 6, 113, 65, 233, 92, 109, 173, 207, 16),
    Row(226, 187, 9, 35, 46, 52, 88, 137, 153, 145, 215, 39, 14, 71, 79, 85),
    Row(223, 124, 227, 18, 34, 7, 35, 67, 72, 89, 249, 176, 50, 8, 46, 138))
  const C4 := Buffer(Row(169, 99, 84, 199, 36, 54, 177, 85, 225, 174, 3, 149, 221, 173, 10, 68),
    Row(247, 161, 78, 124, 178, 57, 163, 170, 96, 110, 125, 83, 148, 233, 56, 245),
    Row(50, 184, 48, 172, 152, 27, 250, 206, 249, 192, 147, 29, 126, 12, 194, 189))
  const C5 := Buffer(Row(195, 171, 154, 166, 139, 83, 43, 77, 195, 102, 182, 17, 122, 198, 161, 3),
    Row(62, 79, 111, 186, 127, 200, 135, 138, 175, 72, 233, 36, 105, 183, 49, 187),
    Row(198, 19, 195, 100, 208, 99, 73, 12, 21, 7, 146, 56, 222, 17, 101, 24))
  const C6 := Buffer(Row(127, 90, 86, 148, 37, 135, 11, 236, 40, 1, 152, 13, 138, 9, 151, 245),
    Row(211, 196, 3, 115, 173, 13, 119, 60, 20, 136, 111, 226, 222, 170, 200, 159),
    Row(201, 242, 147, 201, 49, 45, 94, 155, 124, 155, 251, 11, 127, 224, 151, 238))
  const C7 := Buffer(Row(203, 82, 11, 53, 187, 115, 217, 39, 62, 239, 146, 40, 237, 124, 11, 84),
    Row(137, 159, 12, 159, 162, 174, 157, 124, 136, 14, 105, 188, 159, 165, 153, 217),
    Row(2, 177, 192, 163, 18, 40, 57, 96, 131, 194, 204, 7, 126, 228, 241, 170))
  const C8 := Buffer(Row(231, 182, 143, 55, 242, 35, 229, 127, 207, 165, 195, 224, 31, 182, 143, 86),
    Row(187, 107, 38, 127, 83, 52, 71, 67, 25, 157, 41, 254, 28, 25, 10, 141),
    Row(47, 163, 227, 173, 215, 69, 139, 5, 91, 37, 24, 159, 113, 92, 78, 245))
  const C9 := Buffer(Row(120, 192, 229, 111, 52, 249, 124, 227, 193, 121, 63, 154, 126, 178, 130, 38),
    Row(91, 140, 192, 21, 148, 154, 38, 163, 58, 104, 254, 125, 104, 206, 187, 121),
    Row(211, 40, 132, 201, 54, 155, 226, 178, 86, 23, 148, 49, 63, 38, 174, 31))
  const C10 := Buffer(Row(110, 106, 119, 217, 255, 237, 9, 213, 162, 218, 234, 232, 216, 91, 101, 131),
    Row(2, 207, 138, 218, 65, 242, 118, 222, 39, 126, 250, 240, 89, 240, 138, 182),
    Row(87, 15, 151, 63, 76, 144, 249, 43, 78, 72, 0, 24, 167, 28, 18, 26))
  const C11 := Buffer(Row(82, 55, 62, 55, 182, 105, 87, 242, 242, 138, 37, 60, 99, 232, 195, 75),
    Row(139, 170, 115, 8, 124, 110, 220, 229, 127, 143, 248, 43, 65, 152, 150, 15),
    Row(68, 26, 188, 126, 72, 4, 91, 204, 66, 49, 78, 71, 152, 0, 59, 148))
  const C12 := Buffer(Row(44, 189, 191, 101, 19, 154, 54, 44, 120, 252, 186, 241, 39, 254, 64, 226),
    Row(60, 17, 212, 235, 132, 10, 136, 99, 204, 131, 161, 108, 237, 237, 227, 1),
    Row(106, 136, 58, 139, 45, 19, 168, 15, 81, 78, 17, 224, 106, 146, 30, 22))
  const C13 := Buffer(Row(183, 180, 58, 144, 8, 167, 12, 192, 18, 249, 35, 205, 154, 159, 79, 195),
    Row(244, 158, 170, 18, 129, 151, 126, 103, 29, 207, 235, 148, 67, 124, 127, 240),
    Row(91, 111, 252, 20, 237, 102, 29, 67, 192, 36, 236, 11, 203, 154, 127, 231))
  const C14 := Buffer(Row(3, 125, 78, 207, 66, 222, 17, 103, 195, 49, 109, 155, 243, 43, 87, 228),
    Row(146, 187, 94, 133, 240, 166, 209, 239, 23, 67, 122, 255, 87, 91, 152, 236),
    Row(176, 67, 109, 66, 148, 200, 57, 184, 19, 215, 129, 150, 114, 162, 220, 220))
  const C15 := Buffer(Row(116, 235, 182, 75, 203, 214, 249, 254, 64, 152, 113, 35, 207, 97, 78, 187),
    Row(102, 14, 88, 176, 220, 157, 145, 143, 21, 132, 30, 125, 35, 103, 73, 46),
    Row(85, 211, 230, 146, 177, 155, 80, 56, 179, 185, 94, 1, 92, 29, 144, 199))
  const C16 := Buffer(Row(23, 103, 103, 154, 170, 47, 235, 6, 60, 35, 77, 1, 225, 142, 230, 107),
    Row(76, 5, 128, 245, 49, 211, 26, 164, 200, 160, 75, 244, 172, 221, 73, 236),
    Row(190, 158, 152, 142, 25, 8, 109, 110, 25, 42, 49, 79, 125, 105, 206, 118))
  const C17 := Buffer(Row(102, 210, 242, 202, 209, 167, 209, 142, 148, 141, 96, 254, 98, 190, 171, 165),
    Row(29, 73, 66, 140, 215, 190, 87, 131, 145, 192, 33, 111, 106, 79, 104, 59),
    Row(48, 32, 134, 9, 47, 26, 70, 105, 71, 21, 246, 80, 253, 120, 184, 165))
  const C18 := Buffer(Row(78, 141, 223, 243, 101, 2, 146, 171, 90, 65, 8, 195, 170, 71, 148, 11),
    Row(188, 8, 127, 125, 163, 157, 23, 15, 130, 176, 13, 159, 101, 234, 26, 16),
    Row(82, 125, 242, 89, 17, 189, 199, 147, 234, 103, 39, 70, 250, 245, 85, 53))

  lemma C0X() ensures Swept(MIXING_TABLE, C0.x, 0, C1.x) { Lookups(); hide MIXING_TABLE; }
  lemma C0Y() ensures Swept(MIXING_TABLE, C0.y, C1.x.a15, C1.y) { Lookups(); hide MIXING_TABLE; }
  lemma C0Z() ensures Swept(MIXING_TABLE, C0.z, C1.y.a15, C1.z) { Lookups(); hide MIXING_TABLE; }
  lemma C1X() ensures Swept(MIXING_TABLE, C1.x, 156, C2.x) { Lookups(); hide MIXING_TABLE; }
  lemma C1Y() ensures Swept(MIXING_TABLE, C1.y, C2.x.a15, C2.y) { Lookups(); hide MIXING_TABLE; }
  lemma C1Z() ensures Swept(MIXING_TABLE, C1.z, C2.y.a15, C2.z) { Lookups(); hide MIXING_TABLE; }
  lemma C2X() ensures Swept(MIXING_TABLE, C2.x, 112, C3.x) { Lookups(); hide MIXING_TABLE; }
  lemma C2Y() ensures Swept(MIXING_TABLE, C2.y, C3.x.a15, C3.y) { Lookups(); hide MIXING_TABLE; }
  lemma C2Z() ensures Swept(MIXING_TABLE, C2.z, C3.y.a15, C3.z) { Lookups(); hide MIXING_TABLE; }
  lemma C3X() ensures Swept(MIXING_TABLE, C3.x, 140, C4.x) { Lookups(); hide MIXING_TABLE; }
  lemma C3Y() ensures Swept(MIXING_TABLE, C3.y, C4.x.a15, C4.y) { Lookups(); hide MIXING_TABLE; }
  lemma C3Z() ensures Swept(MIXING_TABLE, C3.z, C4.y.a15, C4.z) { Lookups(); hide MIXING_TABLE; }
  lemma C4X() ensures Swept(MIXING_TABLE, C4.x, 192, C5.x) { Lookups(); hide MIXING_TABLE; }
  lemma C4Y() ensures Swept(MIXING_TABLE, C4.y, C5.x.a15, C5.y) { Lookups(); hide MIXING_TABLE; }
  lemma C4Z() ensures Swept(MIXING_TABLE, C4.z, C5.y.a15, C5.z) { Lookups(); hide MIXING_TABLE; }
  lemma C5X() ensures Swept(MIXING_TABLE, C5.x, 28, C6.x) { Lookups(); hide MIXING_TABLE; }
  lemma C5Y() ensures Swept(MIXING_TABLE, C5.y, C6.x.a15, C6.y) { Lookups(); hide MIXING_TABLE; }
  lemma C5Z() ensures Swept(MIXING_TABLE, C5.z, C6.y.a15, C6.z) { Lookups(); hide MIXING_TABLE; }
  lemma C6X() ensures Swept(MIXING_TABLE, C6.x, 243, C7.x) { Lookups(); hide MIXING_TABLE; }
  lemma C6Y() ensures Swept(MIXING_TABLE, C6.y, C7.x.a15, C7.y) { Lookups(); hide MIXING_TABLE; }
  lemma C6Z() ensures Swept(MIXING_TABLE, C6.z, C7.y.a15, C7.z) { Lookups(); hide MIXING_TABLE; }
  lemma C7X() ensures Swept(MIXING_TABLE, C7.x, 176, C8.x) { Lookups(); hide MIXING_TABLE; }
  lemma C7Y() ensures Swept(MIXING_TABLE, C7.y, C8.x.a15, C8.y) { Lookups(); hide MIXING_TABLE; }
  lemma C7Z() ensures Swept(MIXING_TABLE, C7.z, C8.y.a15, C8.z) { Lookups(); hide MIXING_TABLE; }
  lemma C8X() ensures Swept(MIXING_TABLE, C8.x, 252, C9.x) { Lookups(); hide MIXING_TABLE; }
  lemma C8Y() ensures Swept(MIXING_TABLE, C8.y, C9.x.a15, C9.y) { Lookups(); hide MIXING_TABLE; }
  lemma C8Z() ensures Swept(MIXING_TABLE, C8.z, C9.y.a15, C9.z) { Lookups(); hide MIXING_TABLE; }
  lemma C9X() ensures Swept(MIXING_TABLE, C9.x, 39, C10.x) { Lookups(); hide MIXING_TABLE; }
  lemma C9Y() ensures Swept(MIXING_TABLE, C9.y, C10.x.a15, C10.y) { Lookups(); hide MIXING_TABLE; }
  lemma C9Z() ensures Swept(MIXING_TABLE, C9.z, C10.y.a15, C10.z) { Lookups(); hide MIXING_TABLE; }
  lemma C10X() ensures Swept(MIXING_TABLE, C10.x, 35, C11.x) { Lookups(); hide MIXING_TABLE; }
  lemma C10Y() ensures Swept(MIXING_TABLE, C10.y, C11.x.a15, C11.y) { Lookups(); hide MIXING_TABLE; }
  lemma C10Z() ensures Swept(MIXING_TABLE, C10.z, C11.y.a15, C11.z) { Lookups(); hide MIXING_TABLE; }
  lemma C11X() ensures Swept(MIXING_TABLE, C11.x, 158, C12.x) { Lookups(); hide MIXING_TABLE; }
  lemma C11Y() ensures Swept(MIXING_TABLE, C11.y, C12.x.a15, C12.y) { Lookups(); hide MIXING_TABLE; }
  lemma C11Z() ensures Swept(MIXING_TABLE, C11.z, C12.y.a15, C12.z) { Lookups(); hide MIXING_TABLE; }
  lemma C12X() ensures Swept(MIXING_TABLE, C12.x, 33, C13.x) { Lookups(); hide MIXING_TABLE; }
  lemma C12Y() ensures Swept(MIXING_TABLE, C12.y, C13.x.a15, C13.y) { Lookups(); hide MIXING_TABLE; }
  lemma C12Z() ensures Swept(MIXING_TABLE, C12.z, C13.y.a15, C13.z) { Lookups(); hide MIXING_TABLE; }
  lemma C13X() ensures Swept(MIXING_TABLE, C13.x, 243, C14.x) { Lookups(); hide MIXING_TABLE; }
  lemma C13Y() ensures Swept(MIXING_TABLE, C13.y, C14.x.a15, C14.y) { Lookups(); hide MIXING_TABLE; }
  lemma C13Z() ensures Swept(MIXING_TABLE, C13.z, C14.y.a15, C14.z) { Lookups(); hide MIXING_TABLE; }
  lemma C14X() ensures Swept(MIXING_TABLE, C14.x, 233, C15.x) { Lookups(); hide MIXING_TABLE; }
  lemma C14Y() ensures Swept(MIXING_TABLE, C14.y, C15.x.a15, C15.y) { Lookups(); hide MIXING_TABLE; }
  lemma C14Z() ensures Swept(MIXING_TABLE, C14.z, C15.y.a15, C15.z) { Lookups(); hide MIXING_TABLE; }
  lemma C15X() ensures Swept(MIXING_TABLE, C15.x, 213, C16.x) { Lookups(); hide MIXING_TABLE; }
  lemma C15Y() ensures Swept(MIXING_TABLE, C15.y, C16.x.a15, C16.y) { Lookups(); hide MIXING_TABLE; }
  lemma C15Z() ensures Swept(MIXING_TABLE, C15.z, C16.y.a15, C16.z) { Lookups(); hide MIXING_TABLE; }
  lemma C16X() ensures Swept(MIXING_TABLE, C16.x, 133, C17.x) { Lookups(); hide MIXING_TABLE; }
  lemma C16Y() ensures Swept(MIXING_TABLE, C16.y, C17.x.a15, C17.y) { Lookups(); hide MIXING_TABLE; }
  lemma C16Z() ensures Swept(MIXING_TABLE, C16.z, C17.y.a15, C17.z) { Lookups(); hide MIXING_TABLE; }
  lemma C17X() ensures Swept(MIXING_TABLE, C17.x, 181, C18.x) { Lookups(); hide MIXING_TABLE; }
  lemma C17Y() ensures Swept(MIXING_TABLE, C17.y, C18.x.a15, C18.y) { Lookups(); hide MIXING_TABLE; }
  lemma C17Z() ensures Swept(MIXING_TABLE, C17.z, C18.y.a15, C18.z) { Lookups(); hide MIXING_TABLE; }

  lemma Block3Starts()
    ensures Xored(C0.x, C0.y, C0.z) && C0.x == B18.x && C0.y == K1
  {
  }

  /** What each round but the first is entered with. */
  lemma Block3Entries()
    ensures (C1.z.a15 + 0) % 256 == 156 && (C2.z.a15 + 1) % 256 == 112 && (C3.z.a15 + 2) % 256 == 140
    ensures (C4.z.a15 + 3) % 256 == 192 && (C5.z.a15 + 4) % 256 == 28 && (C6.z.a15 + 5) % 256 == 243
    ensures (C7.z.a15 + 6) % 256 == 176 && (C8.z.a15 + 7) % 256 == 252 && (C9.z.a15 + 8) % 256 == 39
    ensures (C10.z.a15 + 9) % 256 == 35 && (C11.z.a15 + 10) % 256 == 158 && (C12.z.a15 + 11) % 256 == 33
    ensures (C13.z.a15 + 12) % 256 == 243 && (C14.z.a15 + 13) % 256 == 233 && (C15.z.a15 + 14) % 256 == 213
    ensures (C16.z.a15 + 15) % 256 == 133 && (C17.z.a15 + 16) % 256 == 181
  {
  }

  lemma Block3()
    ensures Compress(MIXING_TABLE, RowBytes(B18.x), RowBytes(K1)) == RowBytes(C18.x)
  {
    hide *;
    Block3Starts();
    Block3Entries();
    var s, start := MIXING_TABLE, Flat(C0);
    BlockStart(s, C0);
    C0X(); C0Y(); C0Z(); TurnIs(s, C0, 0, C1); RoundIs(s, start, 0, C0, 0, C1);
    C1X(); C1Y(); C1Z(); TurnIs(s, C1, 156, C2); RoundIs(s, start, 1, C1, 156, C2);
    C2X(); C2Y(); C2Z(); TurnIs(s, C2, 112, C3); RoundIs(s, start, 2, C2, 112, C3);
    C3X(); C3Y(); C3Z(); TurnIs(s, C3, 140, C4); RoundIs(s, start, 3, C3, 140, C4);
    C4X(); C4Y(); C4Z(); TurnIs(s, C4, 192, C5); RoundIs(s, start, 4, C4, 192, C5);
    C5X(); C5Y(); C5Z(); TurnIs(s, C5, 28, C6); RoundIs(s, start, 5, C5, 28, C6);
    C6X(); C6Y(); C6Z(); TurnIs(s, C6, 243, C7); RoundIs(s, start, 6, C6, 243, C7);
    C7X(); C7Y(); C7Z(); TurnIs(s, C7, 176, C8); RoundIs(s, start, 7, C7, 176, C8);
    C8X(); C8Y(); C8Z(); TurnIs(s, C8, 252, C9); RoundIs(s, start, 8, C8, 252, C9);
    C9X(); C9Y(); C9Z(); TurnIs(s, C9, 39, C10); RoundIs(s, start, 9, C9, 39, C10);
    C10X(); C10Y(); C10Z(); TurnIs(s, C10, 35, C11); RoundIs(s, start, 10, C10, 35, C11);
    C11X(); C11Y(); C11Z(); TurnIs(s, C11, 158, C12); RoundIs(s, start, 11, C11, 158, C12);
    C12X(); C12Y(); C12Z(); TurnIs(s, C12, 33, C13); RoundIs(s, start, 12, C12, 33, C13);
    C13X(); C13Y(); C13Z(); TurnIs(s, C13, 243, C14); RoundIs(s, start, 13, C13, 243, C14);
    C14X(); C14Y(); C14Z(); TurnIs(s, C14, 233, C15); RoundIs(s, start, 14, C14, 233, C15);
    C15X(); C15Y(); C15Z(); TurnIs(s, C15, 213, C16); RoundIs(s, start, 15, C15, 213, C16);
    C16X(); C16Y(); C16Z(); TurnIs(s, C16, 133, C17); RoundIs(s, start, 16, C16, 133, C17);
    C17X(); C17Y(); C17Z(); TurnIs(s, C17, 181, C18); RoundIs(s, start, 17, C17, 181, C18);
    BlockEnd(s, B18.x, K1, start, C18, (C18.z.a15 + 17) % 256);
  }

  // ----- the digest -----

  /** The small letters. */
  function Letters(): Bytes {
    RowBytes(P0) + [113, 114, 115, 116, 117, 118, 119, 120, 121, 122]
  }

  const DIGEST: Bytes := [
    0x4e, 0x8d, 0xdf, 0xf3, 0x65, 0x02, 0x92, 0xab,
    0x5a, 0x41, 0x08, 0xc3, 0xaa, 0x47, 0x94, 0x0b]

  lemma LettersPadded()
    ensures Pad(Letters()) == RowBytes(P0) + RowBytes(P1)
  {
    var p, q := Pad(Letters()), RowBytes(P0) + RowBytes(P1);
    assert Padding(6, 6) == [6, 6, 6, 6, 6, 6];
    assert [113, 114, 115, 116, 117, 118, 119, 120, 121, 122] + [6, 6, 6, 6, 6, 6] == RowBytes(P1);
  }

  lemma ThreeBlocks(s: Table, a: Bytes, b: Bytes, c: Bytes)
    requires |a| == |b| == |c| == 16
    ensures Digest(s, a + b + c) == Compress(s, Compress(s, Compress(s, seq(16, i => 0), a), b), c)
  {
    hide Compress;
    DigestAppend(s, [], a);
    DigestAppend(s, a, b);
    DigestAppend(s, a + b, c);
    assert [] + a == a;
  }

  lemma DigestRow()
    ensures RowBytes(ZERO) == seq(16, i => 0) && RowBytes(C18.x) == DIGEST
  {
  }

  /** MD2("abcdefghijklmnopqrstuvwxyz") = 4e8ddff3650292ab5a4108c3aa47940b. */
  lemma LettersDigest()
    ensures Md2(MIXING_TABLE, Letters()) == DIGEST
  {
    LettersPadded();
    MessageSum();
    Block1();
    Block2();
    Block3();
    ThreeBlocks(MIXING_TABLE, RowBytes(P0), RowBytes(P1), RowBytes(K1));
    DigestRow();
    hide Compress, Digest, ChecksumOf, Letters, RowBytes, MIXING_TABLE, P0, P1, K1, C18, ZERO, Pad;
  }
}

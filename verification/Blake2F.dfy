/** The compression function F of BLAKE2b with a free round count, as EIP-152 uses it: the unrolled,
interleaved loop against sections 2.7, 3.1 and 3.2 of RFC 7693. */
module Blake2F {

  type Word64 = bv64
  type Index = x: nat | x < 16
  type Schedule = s: seq<Index> | |s| == 16 witness [0, 0, 0, 0, 0, 0, 0, 0, 0, 0, 0, 0, 0, 0, 0, 0]
  type Message = m: seq<Word64> | |m| == 16 witness [0, 0, 0, 0, 0, 0, 0, 0, 0, 0, 0, 0, 0, 0, 0, 0]
  type Hash = h: seq<Word64> | |h| == 8 witness [0, 0, 0, 0, 0, 0, 0, 0]

  // ---------- Word operations ----------

  function Add(x: Word64, y: Word64): Word64 {
    x + y
  }

  function Add3(x: Word64, y: Word64, z: Word64): Word64 {
    x + y + z
  }

  function Xor(x: Word64, y: Word64): Word64 {
    x ^ y
  }

  /** The program's rotation; the count is a 64-bit word, so a negative one turns right. */
  function RotateLeft(x: Word64, k: Word64): Word64 {
    var s := k & 63;
    (x << s) | (x >> (64 - s))
  }

  /** The rotation of section 2.3. */
  function RotateRight(x: Word64, n: Word64): Word64
    requires 0 < n < 64
  {
    (x >> n) ^ (x << (64 - n))
  }

  lemma Rotations(x: Word64)
    ensures RotateLeft(x, 0 - 32) == RotateRight(x, 32)
    ensures RotateLeft(x, 0 - 24) == RotateRight(x, 24)
    ensures RotateLeft(x, 0 - 16) == RotateRight(x, 16)
    ensures RotateLeft(x, 0 - 63) == RotateRight(x, 63)
  {
  }

  lemma AddSwap(a: Word64, x: Word64, b: Word64)
    ensures Add3(a, x, b) == Add3(a, b, x)
  {
  }

  lemma XorOnes(x: Word64)
    ensures Xor(x, 0xFFFF_FFFF_FFFF_FFFF) == !x
    ensures Xor(x, 0) == x
  {
  }

  // ---------- RFC 7693 ----------

  const IV: Hash := [
    0x6a09e667f3bcc908, 0xbb67ae8584caa73b, 0x3c6ef372fe94f82b, 0xa54ff53a5f1d36f1,
    0x510e527fade682d1, 0x9b05688c2b3e6c1f, 0x1f83d9abfb41bd6b, 0x5be0cd19137e2179]

  // Message schedule, section 2.7.
  const SIGMA_0: Schedule := [0, 1, 2, 3, 4, 5, 6, 7, 8, 9, 10, 11, 12, 13, 14, 15]
  const SIGMA_1: Schedule := [14, 10, 4, 8, 9, 15, 13, 6, 1, 12, 0, 2, 11, 7, 5, 3]
  const SIGMA_2: Schedule := [11, 8, 12, 0, 5, 2, 15, 13, 10, 14, 3, 6, 7, 1, 9, 4]
  const SIGMA_3: Schedule := [7, 9, 3, 1, 13, 12, 11, 14, 2, 6, 5, 10, 4, 0, 15, 8]
  const SIGMA_4: Schedule := [9, 0, 5, 7, 2, 4, 10, 15, 14, 1, 11, 12, 6, 8, 3, 13]
  const SIGMA_5: Schedule := [2, 12, 6, 10, 0, 11, 8, 3, 4, 13, 7, 5, 15, 14, 1, 9]
  const SIGMA_6: Schedule := [12, 5, 1, 15, 14, 13, 4, 10, 0, 7, 6, 3, 9, 2, 8, 11]
  const SIGMA_7: Schedule := [13, 11, 7, 14, 12, 1, 3, 9, 5, 0, 15, 4, 8, 6, 2, 10]
  const SIGMA_8: Schedule := [6, 15, 14, 9, 11, 3, 0, 8, 12, 2, 13, 7, 1, 4, 10, 5]
  const SIGMA_9: Schedule := [10, 2, 8, 4, 7, 6, 1, 5, 15, 11, 9, 14, 3, 12, 13, 0]

  function Sigma(r: nat): Schedule
    requires r < 10
  {
    match r
    case 0 => SIGMA_0
    case 1 => SIGMA_1
    case 2 => SIGMA_2
    case 3 => SIGMA_3
    case 4 => SIGMA_4
    case 5 => SIGMA_5
    case 6 => SIGMA_6
    case 7 => SIGMA_7
    case 8 => SIGMA_8
    case _ => SIGMA_9
  }

  datatype Quad = Quad(a: Word64, b: Word64, c: Word64, d: Word64)

  function First(a: Word64, b: Word64, c: Word64, d: Word64, x: Word64): Quad {
    var a1 := Add3(a, b, x);
    var d1 := RotateRight(Xor(d, a1), 32);
    var c1 := Add(c, d1);
    var b1 := RotateRight(Xor(b, c1), 24);
    Quad(a1, b1, c1, d1)
  }

  function Second(a: Word64, b: Word64, c: Word64, d: Word64, y: Word64): Quad {
    var a1 := Add3(a, b, y);
    var d1 := RotateRight(Xor(d, a1), 16);
    var c1 := Add(c, d1);
    var b1 := RotateRight(Xor(b, c1), 63);
    Quad(a1, b1, c1, d1)
  }

  /** The mixing function G on four words, section 3.1. */
  function Mix(a: Word64, b: Word64, c: Word64, d: Word64, x: Word64, y: Word64): Quad {
    var q := First(a, b, c, d, x);
    Second(q.a, q.b, q.c, q.d, y)
  }

  /** The work vector. */
  datatype Vector = Vector(
    w0: Word64, w1: Word64, w2: Word64, w3: Word64, w4: Word64, w5: Word64, w6: Word64, w7: Word64,
    w8: Word64, w9: Word64, w10: Word64, w11: Word64, w12: Word64, w13: Word64, w14: Word64, w15: Word64)

  function At(v: Vector, i: Index): Word64 {
    if i == 0 then v.w0
    else if i == 1 then v.w1
    else if i == 2 then v.w2
    else if i == 3 then v.w3
    else if i == 4 then v.w4
    else if i == 5 then v.w5
    else if i == 6 then v.w6
    else if i == 7 then v.w7
    else if i == 8 then v.w8
    else if i == 9 then v.w9
    else if i == 10 then v.w10
    else if i == 11 then v.w11
    else if i == 12 then v.w12
    else if i == 13 then v.w13
    else if i == 14 then v.w14
    else v.w15
  }

  function Set(v: Vector, i: Index, x: Word64): Vector {
    if i == 0 then v.(w0 := x)
    else if i == 1 then v.(w1 := x)
    else if i == 2 then v.(w2 := x)
    else if i == 3 then v.(w3 := x)
    else if i == 4 then v.(w4 := x)
    else if i == 5 then v.(w5 := x)
    else if i == 6 then v.(w6 := x)
    else if i == 7 then v.(w7 := x)
    else if i == 8 then v.(w8 := x)
    else if i == 9 then v.(w9 := x)
    else if i == 10 then v.(w10 := x)
    else if i == 11 then v.(w11 := x)
    else if i == 12 then v.(w12 := x)
    else if i == 13 then v.(w13 := x)
    else if i == 14 then v.(w14 := x)
    else v.(w15 := x)
  }

  /** G on words `a`, `b`, `c`, `d` of the work vector. */
  function Apply(v: Vector, a: Index, b: Index, c: Index, d: Index, x: Word64, y: Word64): Vector {
    var q := Mix(At(v, a), At(v, b), At(v, c), At(v, d), x, y);
    Set(Set(Set(Set(v, a, q.a), b, q.b), c, q.c), d, q.d)
  }

  /** The message word the schedule names. */
  function Pick(m: Message, s: Schedule, i: Index): Word64 {
    m[s[i]]
  }

  function MixColumns(v: Vector, m: Message, s: Schedule): Vector {
    var w1 := Apply(v, 0, 4, 8, 12, Pick(m, s, 0), Pick(m, s, 1));
    var w2 := Apply(w1, 1, 5, 9, 13, Pick(m, s, 2), Pick(m, s, 3));
    var w3 := Apply(w2, 2, 6, 10, 14, Pick(m, s, 4), Pick(m, s, 5));
    var w4 := Apply(w3, 3, 7, 11, 15, Pick(m, s, 6), Pick(m, s, 7));
    w4
  }

  function MixDiagonals(v: Vector, m: Message, s: Schedule): Vector {
    var w1 := Apply(v, 0, 5, 10, 15, Pick(m, s, 8), Pick(m, s, 9));
    var w2 := Apply(w1, 1, 6, 11, 12, Pick(m, s, 10), Pick(m, s, 11));
    var w3 := Apply(w2, 2, 7, 8, 13, Pick(m, s, 12), Pick(m, s, 13));
    var w4 := Apply(w3, 3, 4, 9, 14, Pick(m, s, 14), Pick(m, s, 15));
    w4
  }

  lemma Column0(v: Vector, x: Word64, y: Word64)
    ensures var q := Mix(v.w0, v.w4, v.w8, v.w12, x, y);
      Apply(v, 0, 4, 8, 12, x, y) == v.(w0 := q.a, w4 := q.b, w8 := q.c, w12 := q.d)
  {
    hide Mix;
  }

  lemma Column1(v: Vector, x: Word64, y: Word64)
    ensures var q := Mix(v.w1, v.w5, v.w9, v.w13, x, y);
      Apply(v, 1, 5, 9, 13, x, y) == v.(w1 := q.a, w5 := q.b, w9 := q.c, w13 := q.d)
  {
    hide Mix;
  }

  lemma Column2(v: Vector, x: Word64, y: Word64)
    ensures var q := Mix(v.w2, v.w6, v.w10, v.w14, x, y);
      Apply(v, 2, 6, 10, 14, x, y) == v.(w2 := q.a, w6 := q.b, w10 := q.c, w14 := q.d)
  {
    hide Mix;
  }

  lemma Column3(v: Vector, x: Word64, y: Word64)
    ensures var q := Mix(v.w3, v.w7, v.w11, v.w15, x, y);
      Apply(v, 3, 7, 11, 15, x, y) == v.(w3 := q.a, w7 := q.b, w11 := q.c, w15 := q.d)
  {
    hide Mix;
  }

  /** The columns do not touch each other: each is one mix of its own four words. */
  lemma Columns(v: Vector, m: Message, s: Schedule)
    ensures var q0 := Mix(v.w0, v.w4, v.w8, v.w12, m[s[0]], m[s[1]]);
      var q1 := Mix(v.w1, v.w5, v.w9, v.w13, m[s[2]], m[s[3]]);
      var q2 := Mix(v.w2, v.w6, v.w10, v.w14, m[s[4]], m[s[5]]);
      var q3 := Mix(v.w3, v.w7, v.w11, v.w15, m[s[6]], m[s[7]]);
      MixColumns(v, m, s) == Vector(
        q0.a, q1.a, q2.a, q3.a, q0.b, q1.b, q2.b, q3.b,
        q0.c, q1.c, q2.c, q3.c, q0.d, q1.d, q2.d, q3.d)
  {
    hide Mix, Apply;
    Column0(v, Pick(m, s, 0), Pick(m, s, 1));
    var w1 := Apply(v, 0, 4, 8, 12, Pick(m, s, 0), Pick(m, s, 1));
    Column1(w1, Pick(m, s, 2), Pick(m, s, 3));
    var w2 := Apply(w1, 1, 5, 9, 13, Pick(m, s, 2), Pick(m, s, 3));
    Column2(w2, Pick(m, s, 4), Pick(m, s, 5));
    var w3 := Apply(w2, 2, 6, 10, 14, Pick(m, s, 4), Pick(m, s, 5));
    Column3(w3, Pick(m, s, 6), Pick(m, s, 7));
  }

  lemma Diagonal0(v: Vector, x: Word64, y: Word64)
    ensures var q := Mix(v.w0, v.w5, v.w10, v.w15, x, y);
      Apply(v, 0, 5, 10, 15, x, y) == v.(w0 := q.a, w5 := q.b, w10 := q.c, w15 := q.d)
  {
    hide Mix;
  }

  lemma Diagonal1(v: Vector, x: Word64, y: Word64)
    ensures var q := Mix(v.w1, v.w6, v.w11, v.w12, x, y);
      Apply(v, 1, 6, 11, 12, x, y) == v.(w1 := q.a, w6 := q.b, w11 := q.c, w12 := q.d)
  {
    hide Mix;
  }

  lemma Diagonal2(v: Vector, x: Word64, y: Word64)
    ensures var q := Mix(v.w2, v.w7, v.w8, v.w13, x, y);
      Apply(v, 2, 7, 8, 13, x, y) == v.(w2 := q.a, w7 := q.b, w8 := q.c, w13 := q.d)
  {
    hide Mix;
  }

  lemma Diagonal3(v: Vector, x: Word64, y: Word64)
    ensures var q := Mix(v.w3, v.w4, v.w9, v.w14, x, y);
      Apply(v, 3, 4, 9, 14, x, y) == v.(w3 := q.a, w4 := q.b, w9 := q.c, w14 := q.d)
  {
    hide Mix;
  }

  /** Nor do the diagonals. */
  lemma Diagonals(v: Vector, m: Message, s: Schedule)
    ensures var q0 := Mix(v.w0, v.w5, v.w10, v.w15, m[s[8]], m[s[9]]);
      var q1 := Mix(v.w1, v.w6, v.w11, v.w12, m[s[10]], m[s[11]]);
      var q2 := Mix(v.w2, v.w7, v.w8, v.w13, m[s[12]], m[s[13]]);
      var q3 := Mix(v.w3, v.w4, v.w9, v.w14, m[s[14]], m[s[15]]);
      MixDiagonals(v, m, s) == Vector(
        q0.a, q1.a, q2.a, q3.a, q3.b, q0.b, q1.b, q2.b,
        q2.c, q3.c, q0.c, q1.c, q1.d, q2.d, q3.d, q0.d)
  {
    hide Mix, Apply;
    Diagonal0(v, Pick(m, s, 8), Pick(m, s, 9));
    var w1 := Apply(v, 0, 5, 10, 15, Pick(m, s, 8), Pick(m, s, 9));
    Diagonal1(w1, Pick(m, s, 10), Pick(m, s, 11));
    var w2 := Apply(w1, 1, 6, 11, 12, Pick(m, s, 10), Pick(m, s, 11));
    Diagonal2(w2, Pick(m, s, 12), Pick(m, s, 13));
    var w3 := Apply(w2, 2, 7, 8, 13, Pick(m, s, 12), Pick(m, s, 13));
    Diagonal3(w3, Pick(m, s, 14), Pick(m, s, 15));
  }

  /** The first `n` rounds. */
  function Rounds(v: Vector, m: Message, n: nat): Vector {
    if n == 0 then v
    else
      var s := Sigma((n - 1) % 10);
      MixDiagonals(MixColumns(Rounds(v, m, n - 1), m, s), m, s)
  }

  /** The work vector before the first round; `final` inverts word 14. */
  function Start(h: Hash, t0: Word64, t1: Word64, final: bool): Vector {
    Vector(h[0], h[1], h[2], h[3], h[4], h[5], h[6], h[7],
           IV[0], IV[1], IV[2], IV[3], Xor(IV[4], t0), Xor(IV[5], t1), if final then !IV[6] else IV[6], IV[7])
  }

  /** Section 3.2, with `n` rounds: both halves of the work vector go into the state. */
  function F(h: Hash, m: Message, t0: Word64, t1: Word64, final: bool, n: nat): Hash {
    var v := Rounds(Start(h, t0, t1, final), m, n);
    [Xor(h[0], Xor(v.w0, v.w8)), Xor(h[1], Xor(v.w1, v.w9)), Xor(h[2], Xor(v.w2, v.w10)), Xor(h[3], Xor(v.w3, v.w11)),
     Xor(h[4], Xor(v.w4, v.w12)), Xor(h[5], Xor(v.w5, v.w13)), Xor(h[6], Xor(v.w6, v.w14)), Xor(h[7], Xor(v.w7, v.w15))]
  }

  // ---------- The program ----------

  // The schedule with the words of each half-step side by side.
  const PRECOMPUTED_0: Schedule := [0, 2, 4, 6, 1, 3, 5, 7, 8, 10, 12, 14, 9, 11, 13, 15]
  const PRECOMPUTED_1: Schedule := [14, 4, 9, 13, 10, 8, 15, 6, 1, 0, 11, 5, 12, 2, 7, 3]
  const PRECOMPUTED_2: Schedule := [11, 12, 5, 15, 8, 0, 2, 13, 10, 3, 7, 9, 14, 6, 1, 4]
  const PRECOMPUTED_3: Schedule := [7, 3, 13, 11, 9, 1, 12, 14, 2, 5, 4, 15, 6, 10, 0, 8]
  const PRECOMPUTED_4: Schedule := [9, 5, 2, 10, 0, 7, 4, 15, 14, 11, 6, 3, 1, 12, 8, 13]
  const PRECOMPUTED_5: Schedule := [2, 6, 0, 8, 12, 10, 11, 3, 4, 7, 15, 1, 13, 5, 14, 9]
  const PRECOMPUTED_6: Schedule := [12, 1, 14, 4, 5, 15, 13, 10, 0, 6, 9, 8, 7, 3, 2, 11]
  const PRECOMPUTED_7: Schedule := [13, 7, 12, 3, 11, 14, 1, 9, 5, 15, 8, 2, 0, 4, 6, 10]
  const PRECOMPUTED_8: Schedule := [6, 14, 11, 0, 15, 9, 3, 8, 12, 13, 1, 10, 2, 7, 4, 5]
  const PRECOMPUTED_9: Schedule := [10, 8, 7, 1, 2, 4, 6, 5, 15, 9, 3, 13, 11, 14, 12, 0]

  function Precomputed(r: nat): Schedule
    requires r < 10
  {
    match r
    case 0 => PRECOMPUTED_0
    case 1 => PRECOMPUTED_1
    case 2 => PRECOMPUTED_2
    case 3 => PRECOMPUTED_3
    case 4 => PRECOMPUTED_4
    case 5 => PRECOMPUTED_5
    case 6 => PRECOMPUTED_6
    case 7 => PRECOMPUTED_7
    case 8 => PRECOMPUTED_8
    case _ => PRECOMPUTED_9
  }

  function Reorder(s: Schedule): Schedule {
    [s[0], s[2], s[4], s[6], s[1], s[3], s[5], s[7], s[8], s[10], s[12], s[14], s[9], s[11], s[13], s[15]]
  }

  lemma ReorderedAt(s: Schedule)
    ensures Reorder(s)[0] == s[0] && Reorder(s)[1] == s[2]
    ensures Reorder(s)[2] == s[4] && Reorder(s)[3] == s[6]
    ensures Reorder(s)[4] == s[1] && Reorder(s)[5] == s[3]
    ensures Reorder(s)[6] == s[5] && Reorder(s)[7] == s[7]
    ensures Reorder(s)[8] == s[8] && Reorder(s)[9] == s[10]
    ensures Reorder(s)[10] == s[12] && Reorder(s)[11] == s[14]
    ensures Reorder(s)[12] == s[9] && Reorder(s)[13] == s[11]
    ensures Reorder(s)[14] == s[13] && Reorder(s)[15] == s[15]
  {
  }

  lemma TableReordered(r: nat)
    requires r < 10
    ensures Precomputed(r) == Reorder(Sigma(r))
  {
    if r < 5 {
      LowerRows(r);
    } else {
      UpperRows(r);
    }
  }

  lemma LowerRows(r: nat)
    requires r < 5
    ensures Precomputed(r) == Reorder(Sigma(r))
  {
  }

  lemma UpperRows(r: nat)
    requires 5 <= r < 10
    ensures Precomputed(r) == Reorder(Sigma(r))
  {
  }

  /** Seven statements of the unrolled loop. */
  method FirstHalf(a: Word64, b: Word64, c: Word64, d: Word64, x: Word64)
      returns (va: Word64, vb: Word64, vc: Word64, vd: Word64)
    ensures Quad(va, vb, vc, vd) == First(a, b, c, d, x)
  {
    hide Add, Add3, Xor, RotateLeft, RotateRight;
    va, vb, vc, vd := a, b, c, d;
    AddSwap(va, x, vb);
    va := Add3(va, x, vb);
    vd := Xor(vd, va);
    Rotations(vd);
    vd := RotateLeft(vd, 0 - 32);
    vc := Add(vc, vd);
    vb := Xor(vb, vc);
    Rotations(vb);
    vb := RotateLeft(vb, 0 - 24);
  }

  method SecondHalf(a: Word64, b: Word64, c: Word64, d: Word64, y: Word64)
      returns (va: Word64, vb: Word64, vc: Word64, vd: Word64)
    ensures Quad(va, vb, vc, vd) == Second(a, b, c, d, y)
  {
    hide Add, Add3, Xor, RotateLeft, RotateRight;
    va, vb, vc, vd := a, b, c, d;
    AddSwap(va, y, vb);
    va := Add3(va, y, vb);
    vd := Xor(vd, va);
    Rotations(vd);
    vd := RotateLeft(vd, 0 - 16);
    vc := Add(vc, vd);
    vb := Xor(vb, vc);
    Rotations(vb);
    vb := RotateLeft(vb, 0 - 63);
  }

  /** The first half of a round: four columns, two half-steps each, side by side. */
  method ColumnsStep(m: Message, s: Schedule, ghost sigma: Schedule,
      u0: Word64, u1: Word64, u2: Word64, u3: Word64, u4: Word64, u5: Word64, u6: Word64, u7: Word64,
      u8: Word64, u9: Word64, u10: Word64, u11: Word64, u12: Word64, u13: Word64, u14: Word64, u15: Word64)
      returns (v0: Word64, v1: Word64, v2: Word64, v3: Word64, v4: Word64, v5: Word64, v6: Word64, v7: Word64,
               v8: Word64, v9: Word64, v10: Word64, v11: Word64, v12: Word64, v13: Word64, v14: Word64, v15: Word64)
    requires s == Reorder(sigma)
    ensures Vector(v0, v1, v2, v3, v4, v5, v6, v7, v8, v9, v10, v11, v12, v13, v14, v15)
      == MixColumns(Vector(u0, u1, u2, u3, u4, u5, u6, u7, u8, u9, u10, u11, u12, u13, u14, u15), m, sigma)
  {
    hide First, Second, Reorder, MixColumns;
    ReorderedAt(sigma);
    Columns(Vector(u0, u1, u2, u3, u4, u5, u6, u7, u8, u9, u10, u11, u12, u13, u14, u15), m, sigma);
    v0, v1, v2, v3, v4, v5, v6, v7 := u0, u1, u2, u3, u4, u5, u6, u7;
    v8, v9, v10, v11, v12, v13, v14, v15 := u8, u9, u10, u11, u12, u13, u14, u15;
    v0, v4, v8, v12 := FirstHalf(v0, v4, v8, v12, m[s[0]]);
    v1, v5, v9, v13 := FirstHalf(v1, v5, v9, v13, m[s[1]]);
    v2, v6, v10, v14 := FirstHalf(v2, v6, v10, v14, m[s[2]]);
    v3, v7, v11, v15 := FirstHalf(v3, v7, v11, v15, m[s[3]]);
    v0, v4, v8, v12 := SecondHalf(v0, v4, v8, v12, m[s[4]]);
    v1, v5, v9, v13 := SecondHalf(v1, v5, v9, v13, m[s[5]]);
    v2, v6, v10, v14 := SecondHalf(v2, v6, v10, v14, m[s[6]]);
    v3, v7, v11, v15 := SecondHalf(v3, v7, v11, v15, m[s[7]]);
  }

  /** The second half of a round: the diagonals. */
  method DiagonalsStep(m: Message, s: Schedule, ghost sigma: Schedule,
      u0: Word64, u1: Word64, u2: Word64, u3: Word64, u4: Word64, u5: Word64, u6: Word64, u7: Word64,
      u8: Word64, u9: Word64, u10: Word64, u11: Word64, u12: Word64, u13: Word64, u14: Word64, u15: Word64)
      returns (v0: Word64, v1: Word64, v2: Word64, v3: Word64, v4: Word64, v5: Word64, v6: Word64, v7: Word64,
               v8: Word64, v9: Word64, v10: Word64, v11: Word64, v12: Word64, v13: Word64, v14: Word64, v15: Word64)
    requires s == Reorder(sigma)
    ensures Vector(v0, v1, v2, v3, v4, v5, v6, v7, v8, v9, v10, v11, v12, v13, v14, v15)
      == MixDiagonals(Vector(u0, u1, u2, u3, u4, u5, u6, u7, u8, u9, u10, u11, u12, u13, u14, u15), m, sigma)
  {
    hide First, Second, Reorder, MixDiagonals;
    ReorderedAt(sigma);
    Diagonals(Vector(u0, u1, u2, u3, u4, u5, u6, u7, u8, u9, u10, u11, u12, u13, u14, u15), m, sigma);
    v0, v1, v2, v3, v4, v5, v6, v7 := u0, u1, u2, u3, u4, u5, u6, u7;
    v8, v9, v10, v11, v12, v13, v14, v15 := u8, u9, u10, u11, u12, u13, u14, u15;
    v0, v5, v10, v15 := FirstHalf(v0, v5, v10, v15, m[s[8]]);
    v1, v6, v11, v12 := FirstHalf(v1, v6, v11, v12, m[s[9]]);
    v2, v7, v8, v13 := FirstHalf(v2, v7, v8, v13, m[s[10]]);
    v3, v4, v9, v14 := FirstHalf(v3, v4, v9, v14, m[s[11]]);
    v0, v5, v10, v15 := SecondHalf(v0, v5, v10, v15, m[s[12]]);
    v1, v6, v11, v12 := SecondHalf(v1, v6, v11, v12, m[s[13]]);
    v2, v7, v8, v13 := SecondHalf(v2, v7, v8, v13, m[s[14]]);
    v3, v4, v9, v14 := SecondHalf(v3, v4, v9, v14, m[s[15]]);
  }

  /** The loop over the rounds. */
  method Mixed(h: Hash, m: Message, c0: Word64, c1: Word64, final: bool, rounds: nat)
      returns (v0: Word64, v1: Word64, v2: Word64, v3: Word64, v4: Word64, v5: Word64, v6: Word64, v7: Word64,
               v8: Word64, v9: Word64, v10: Word64, v11: Word64, v12: Word64, v13: Word64, v14: Word64, v15: Word64)
    ensures Vector(v0, v1, v2, v3, v4, v5, v6, v7, v8, v9, v10, v11, v12, v13, v14, v15)
      == Rounds(Start(h, c0, c1, final), m, rounds)
  {
    hide Xor, MixColumns, MixDiagonals, Sigma, Precomputed, Reorder;
    var flag := if final then 0xFFFF_FFFF_FFFF_FFFF else 0;
    v0, v1, v2, v3, v4, v5, v6, v7 := h[0], h[1], h[2], h[3], h[4], h[5], h[6], h[7];
    v8, v9, v10, v11, v12, v13, v14, v15 := IV[0], IV[1], IV[2], IV[3], IV[4], IV[5], IV[6], IV[7];
    v12 := Xor(v12, c0);
    v13 := Xor(v13, c1);
    v14 := Xor(v14, flag);
    XorOnes(IV[6]);
    ghost var start := Start(h, c0, c1, final);
    for i := 0 to rounds
      invariant Vector(v0, v1, v2, v3, v4, v5, v6, v7, v8, v9, v10, v11, v12, v13, v14, v15)
        == Rounds(start, m, i)
    {
      TableReordered(i % 10);
      var s := Precomputed(i % 10);
      v0, v1, v2, v3, v4, v5, v6, v7,
      v8, v9, v10, v11, v12, v13, v14, v15 :=
        ColumnsStep(m, s, Sigma(i % 10), v0, v1, v2, v3, v4, v5, v6, v7, v8, v9, v10, v11, v12, v13, v14, v15);
      v0, v1, v2, v3, v4, v5, v6, v7,
      v8, v9, v10, v11, v12, v13, v14, v15 :=
        DiagonalsStep(m, s, Sigma(i % 10), v0, v1, v2, v3, v4, v5, v6, v7, v8, v9, v10, v11, v12, v13, v14, v15);
    }
  }

  method FGeneric(h: array<Word64>, m: Message, c0: Word64, c1: Word64, final: bool, rounds: nat)
    requires h.Length == 8
    modifies h
    ensures h[..] == F(old(h[..]), m, c0, c1, final, rounds)
  {
    hide Xor, Rounds, Start, F;
    ghost var before: Hash := h[..];
    var v0, v1, v2, v3, v4, v5, v6, v7,
        v8, v9, v10, v11, v12, v13, v14, v15 :=
      Mixed(h[..], m, c0, c1, final, rounds);
    h[0] := Xor(h[0], Xor(v0, v8));
    h[1] := Xor(h[1], Xor(v1, v9));
    h[2] := Xor(h[2], Xor(v2, v10));
    h[3] := Xor(h[3], Xor(v3, v11));
    h[4] := Xor(h[4], Xor(v4, v12));
    h[5] := Xor(h[5], Xor(v5, v13));
    h[6] := Xor(h[6], Xor(v6, v14));
    h[7] := Xor(h[7], Xor(v7, v15));
    assert h[..][0] == h[0] && h[..][1] == h[1] && h[..][2] == h[2] && h[..][3] == h[3];
    assert h[..][4] == h[4] && h[..][5] == h[5] && h[..][6] == h[6] && h[..][7] == h[7];
    FoldIs(before, m, c0, c1, final, rounds, h[..]);
  }

  lemma FoldIs(h: Hash, m: Message, t0: Word64, t1: Word64, final: bool, n: nat, r: Hash)
    requires var v := Rounds(Start(h, t0, t1, final), m, n);
      && r[0] == Xor(h[0], Xor(v.w0, v.w8)) && r[1] == Xor(h[1], Xor(v.w1, v.w9))
      && r[2] == Xor(h[2], Xor(v.w2, v.w10)) && r[3] == Xor(h[3], Xor(v.w3, v.w11))
      && r[4] == Xor(h[4], Xor(v.w4, v.w12)) && r[5] == Xor(h[5], Xor(v.w5, v.w13))
      && r[6] == Xor(h[6], Xor(v.w6, v.w14)) && r[7] == Xor(h[7], Xor(v.w7, v.w15))
    ensures r == F(h, m, t0, t1, final, n)
  {
    hide Xor, Rounds, Start;
    SameWords(r, F(h, m, t0, t1, final, n));
  }

  lemma SameWords(a: Hash, b: Hash)
    requires a[0] == b[0] && a[1] == b[1] && a[2] == b[2] && a[3] == b[3]
    requires a[4] == b[4] && a[5] == b[5] && a[6] == b[6] && a[7] == b[7]
    ensures a == b
  {
  }
}

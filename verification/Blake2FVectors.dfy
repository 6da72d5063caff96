/** What the constants of `Blake2F` come from, and two of the test vectors of EIP-152. */
module Blake2FVectors {
  import opened Blake2F

  const PRIMES: seq<nat> := [2, 3, 5, 7, 11, 13, 17, 19]
  const TWO_64: nat := 0x1_0000_0000_0000_0000

  /** The word is the first 64 bits of the fractional part of the square root of `p`. */
  ghost predicate RootBits(p: nat, w: Word64) {
    exists n: nat :: IsRoot(p, n, w)
  }

  ghost predicate IsRoot(p: nat, n: nat, w: Word64) {
    var x := n * TWO_64 + w as nat;
    n * n <= p < (n + 1) * (n + 1) && x * x <= p * TWO_64 * TWO_64 < (x + 1) * (x + 1)
  }

  lemma FirstRoots()
    ensures IsRoot(2, 1, IV[0]) && IsRoot(3, 1, IV[1]) && IsRoot(5, 2, IV[2]) && IsRoot(7, 2, IV[3])
  {
  }

  lemma LastRoots()
    ensures IsRoot(11, 3, IV[4]) && IsRoot(13, 3, IV[5]) && IsRoot(17, 4, IV[6]) && IsRoot(19, 4, IV[7])
  {
  }

  /** Section 2.6: the initialization vector comes from the square roots of the first eight primes. */
  lemma InitializationVector(i: nat)
    requires i < 8
    ensures RootBits(PRIMES[i], IV[i])
  {
    hide IsRoot;
    FirstRoots();
    LastRoots();
  }

  const ABC_STATE: Hash := [
    0x6a09e667f2bdc948, 0xbb67ae8584caa73b, 0x3c6ef372fe94f82b, 0xa54ff53a5f1d36f1,
    0x510e527fade682d1, 0x9b05688c2b3e6c1f, 0x1f83d9abfb41bd6b, 0x5be0cd19137e2179]
  const ABC_MESSAGE: Message := [0x636261, 0, 0, 0, 0, 0, 0, 0, 0, 0, 0, 0, 0, 0, 0, 0]

  /** Vector 4, with no round. */
  lemma VectorFour()
    ensures F(ABC_STATE, ABC_MESSAGE, 3, 0, true, 0) == [
      0x6a09e667f3bcc908, 0xbb67ae8584caa73b, 0x3c6ef372fe94f82b, 0xa54ff53a5f1d36f1,
      0x510e527fade682d2, 0x9b05688c2b3e6c1f, 0xe07c265404be4294, 0x5be0cd19137e2179]
  {
    assert Rounds(Start(ABC_STATE, 3, 0, true), ABC_MESSAGE, 0) == Start(ABC_STATE, 3, 0, true);
  }

  const ABC_COLUMNS := Vector(
    0xf0c9aa0f86491dea, 0x63b7dedf4a4e5ad3, 0xbe50eb454e0a93d7, 0x949804b0483ead14,
    0xb7defc3d0277e11f, 0xed49c30cd311d50e, 0xa056671704b00d71, 0x75e6432fc4661b06,
    0xee5e0f39647a9fff, 0x7bee264bf3cdadfe, 0xb2752dadd66bd8f9, 0xa99463cb37905929,
    0x7772fc2886a76c5f, 0x254ef880a19a8726, 0x789d43381c47f584, 0xa25ef57d7da312ee)
  const ABC_DIAGONALS := Vector(
    0x86b7c1568029bb79, 0xc12cbcc809ff59f3, 0xc6a5214cc0eaca8e, 0x0c87cd524c14cc5d,
    0x44ee6039bd86a9f7, 0xa447c850aa694a7e, 0xde080f1bb1c0f84b, 0x595cb8a9a1aca66c,
    0xbec3ae837eac4887, 0x6267fc79df9d6ad1, 0xfa87b01273fa6dbe, 0x521a715c63e08d8a,
    0xe02d0975b8d37a83, 0x1c7b754f08b7d193, 0x8f885a76b6e578fe, 0x2318a24e2140fc64)

  lemma ColumnMixes()
    ensures Mix(0x6a09e667f2bdc948, 0x510e527fade682d1, 0x6a09e667f3bcc908, 0x510e527fade682d2, 0x636261, 0) ==
      Quad(0xf0c9aa0f86491dea, 0xb7defc3d0277e11f, 0xee5e0f39647a9fff, 0x7772fc2886a76c5f)
    ensures Mix(0xbb67ae8584caa73b, 0x9b05688c2b3e6c1f, 0xbb67ae8584caa73b, 0x9b05688c2b3e6c1f, 0, 0) ==
      Quad(0x63b7dedf4a4e5ad3, 0xed49c30cd311d50e, 0x7bee264bf3cdadfe, 0x254ef880a19a8726)
    ensures Mix(0x3c6ef372fe94f82b, 0x1f83d9abfb41bd6b, 0x3c6ef372fe94f82b, 0xe07c265404be4294, 0, 0) ==
      Quad(0xbe50eb454e0a93d7, 0xa056671704b00d71, 0xb2752dadd66bd8f9, 0x789d43381c47f584)
    ensures Mix(0xa54ff53a5f1d36f1, 0x5be0cd19137e2179, 0xa54ff53a5f1d36f1, 0x5be0cd19137e2179, 0, 0) ==
      Quad(0x949804b0483ead14, 0x75e6432fc4661b06, 0xa99463cb37905929, 0xa25ef57d7da312ee)
  {
  }

  lemma DiagonalMixes()
    ensures Mix(0xf0c9aa0f86491dea, 0xed49c30cd311d50e, 0xb2752dadd66bd8f9, 0xa25ef57d7da312ee, 0, 0) ==
      Quad(0x86b7c1568029bb79, 0xa447c850aa694a7e, 0xfa87b01273fa6dbe, 0x2318a24e2140fc64)
    ensures Mix(0x63b7dedf4a4e5ad3, 0xa056671704b00d71, 0xa99463cb37905929, 0x7772fc2886a76c5f, 0, 0) ==
      Quad(0xc12cbcc809ff59f3, 0xde080f1bb1c0f84b, 0x521a715c63e08d8a, 0xe02d0975b8d37a83)
    ensures Mix(0xbe50eb454e0a93d7, 0x75e6432fc4661b06, 0xee5e0f39647a9fff, 0x254ef880a19a8726, 0, 0) ==
      Quad(0xc6a5214cc0eaca8e, 0x595cb8a9a1aca66c, 0xbec3ae837eac4887, 0x1c7b754f08b7d193)
    ensures Mix(0x949804b0483ead14, 0xb7defc3d0277e11f, 0x7bee264bf3cdadfe, 0x789d43381c47f584, 0, 0) ==
      Quad(0xc87cd524c14cc5d, 0x44ee6039bd86a9f7, 0x6267fc79df9d6ad1, 0x8f885a76b6e578fe)
  {
  }

  lemma ColumnsOfSeven()
    ensures MixColumns(Start(ABC_STATE, 3, 0, true), ABC_MESSAGE, SIGMA_0) == ABC_COLUMNS
  {
    hide Mix, MixColumns;
    Columns(Start(ABC_STATE, 3, 0, true), ABC_MESSAGE, SIGMA_0);
    ColumnMixes();
  }

  lemma DiagonalsOfSeven()
    ensures MixDiagonals(ABC_COLUMNS, ABC_MESSAGE, SIGMA_0) == ABC_DIAGONALS
  {
    hide Mix, MixDiagonals;
    Diagonals(ABC_COLUMNS, ABC_MESSAGE, SIGMA_0);
    DiagonalMixes();
  }

  /** Vector 7, with one round. */
  lemma VectorSeven()
    ensures F(ABC_STATE, ABC_MESSAGE, 3, 0, true, 1) == [
      0x527d89b20c383ab6, 0x182cee3452a89419, 0x4c622c4d845f1b, 0xfbd2493470e97726,
      0xf5cd3b33a8b351a5, 0x2339d59389e0f7f2, 0x4e038cc6fc643dde, 0x21a4d7fe93927b71]
  {
    hide MixColumns, MixDiagonals;
    ColumnsOfSeven();
    DiagonalsOfSeven();
    var v := Start(ABC_STATE, 3, 0, true);
    assert Rounds(v, ABC_MESSAGE, 0) == v && Sigma(0) == SIGMA_0;
    assert Rounds(v, ABC_MESSAGE, 1) == ABC_DIAGONALS;
  }
}

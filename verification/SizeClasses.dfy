/** The size classes of the slab allocator (`zoneindex` in rt-thread/src/slab.c). */
module SizeClasses {

  const NZONES: nat := 72
  const LARGEST: nat := 16384

  /** `(n + g - 1) & ~(g - 1)` for a power of two `g`. */
  function RoundUp(n: nat, g: nat): nat
    requires g > 0
  {
    (n + g - 1) / g * g
  }

  /** The class of a request, and the request rounded to the chunk size of that class. */
  function ZoneIndex(n: nat): (int, nat) {
    if n < 128 then (RoundUp(n, 8) / 8 - 1, RoundUp(n, 8))
    else if n < 256 then (RoundUp(n, 16) / 16 + 7, RoundUp(n, 16))
    else if n < 512 then (RoundUp(n, 32) / 32 + 15, RoundUp(n, 32))
    else if n < 1024 then (RoundUp(n, 64) / 64 + 23, RoundUp(n, 64))
    else if n < 2048 then (RoundUp(n, 128) / 128 + 31, RoundUp(n, 128))
    else if n < 4096 then (RoundUp(n, 256) / 256 + 39, RoundUp(n, 256))
    else if n < 8192 then (RoundUp(n, 512) / 512 + 47, RoundUp(n, 512))
    else if n < 16384 then (RoundUp(n, 1024) / 1024 + 55, RoundUp(n, 1024))
    else (0, n)
  }

  /** The chunk size of a class, read off the class alone. */
  function ChunkSize(zi: nat): nat {
    if zi < 16 then 8 * (zi + 1)
    else if zi < 24 then 16 * (zi - 7)
    else if zi < 32 then 32 * (zi - 15)
    else if zi < 40 then 64 * (zi - 23)
    else if zi < 48 then 128 * (zi - 31)
    else if zi < 56 then 256 * (zi - 39)
    else if zi < 64 then 512 * (zi - 47)
    else 1024 * (zi - 55)
  }

  lemma RoundUpIs(n: nat, g: nat)
    requires g > 0
    ensures n <= RoundUp(n, g) < n + g
    ensures RoundUp(n, g) / g * g == RoundUp(n, g) && RoundUp(n, g) / g == (n + g - 1) / g
  {
    var q := (n + g - 1) / g;
    assert n + g - 1 == q * g + (n + g - 1) % g;
    Quotient(q, g);
  }

  lemma Quotient(q: nat, g: nat)
    requires g > 0
    ensures q * g / g == q
  {
    var k := q * g / g;
    var r := q * g - k * g;
    assert 0 <= r < g;
    Times(q, k, g);
  }

  lemma Times(q: int, k: int, g: nat)
    requires g > 0 && 0 <= q * g - k * g < g
    ensures q == k
  {
    var m := q - k;
    assert m * g == q * g - k * g;
    assert m * g == g + (m - 1) * g;
    assert m * g == (m + 1) * g - g;
    assert (-m - 1) * g == -((m + 1) * g);
    if m >= 1 {
      NotNegative(m - 1, g);
    } else if m < 0 {
      NotNegative(-m - 1, g);
    }
  }

  lemma NotNegative(a: nat, b: nat)
    ensures a * b >= 0
  {
  }

  /** The waste is under an eighth of the request or under eight bytes. */
  lemma ClassWaste(n: nat)
    requires 0 < n < LARGEST
    ensures var size := ZoneIndex(n).1; size - n < 8 || 8 * (size - n) < n
  {
    hide RoundUp;
    RoundUpIs(n, 8);
    RoundUpIs(n, 16);
    RoundUpIs(n, 32);
    RoundUpIs(n, 64);
    RoundUpIs(n, 128);
    RoundUpIs(n, 256);
    RoundUpIs(n, 512);
    RoundUpIs(n, 1024);
  }

  /** The class is one of the seventy-two, and its chunks hold the request. */
  lemma ClassHolds(n: nat)
    requires 0 < n < LARGEST
    ensures var (zi, size) := ZoneIndex(n);
            && 0 <= zi < NZONES && size == ChunkSize(zi) && n <= size <= LARGEST
  {
    hide RoundUp;
    if n < 512 {
      if n < 128 { RoundUpIs(n, 8); }
      else if n < 256 { RoundUpIs(n, 16); }
      else { RoundUpIs(n, 32); }
    } else if n < 2048 {
      if n < 1024 { RoundUpIs(n, 64); } else { RoundUpIs(n, 128); }
    } else if n < 4096 {
      RoundUpIs(n, 256);
    } else if n < 8192 {
      RoundUpIs(n, 512);
    } else {
      RoundUpIs(n, 1024);
    }
  }

  /** Chunk sizes rise with the class, so a class is known by its chunk size. */
  lemma SizesRise(a: nat, b: nat)
    requires a < b < NZONES
    ensures 8 <= ChunkSize(a) && ChunkSize(a) + 8 <= ChunkSize(b)
  {
  }

  /** Of all classes whose chunks hold the request, the one chosen has the smallest. */
  lemma ClassLeast(n: nat, zi: nat)
    requires 0 < n < LARGEST && zi < NZONES && ChunkSize(zi) >= n
    ensures ZoneIndex(n).0 <= zi
  {
    ClassHolds(n);
    var z, size := ZoneIndex(n).0, ZoneIndex(n).1;
    if zi < z {
      SizesRise(zi, z);
      StepBelow(n);
      if zi < z - 1 {
        SizesRise(zi, z - 1);
      }
    }
  }

  /** The class below the one chosen has chunks too small. */
  lemma StepBelow(n: nat)
    requires 0 < n < LARGEST
    ensures ZoneIndex(n).0 > 0 ==> ChunkSize(ZoneIndex(n).0 - 1) < n
  {
    hide RoundUp;
    RoundUpIs(n, 8);
    RoundUpIs(n, 16);
    RoundUpIs(n, 32);
    RoundUpIs(n, 64);
    RoundUpIs(n, 128);
    RoundUpIs(n, 256);
    RoundUpIs(n, 512);
    RoundUpIs(n, 1024);
  }
}

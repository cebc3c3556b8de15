/**
 * The SMC reader's key handling: an SMC key or data type is a
 * four-character code packed big-endian into a 32-bit word, numbers come
 * back from the SMC as big-endian bytes, and key descriptions are cached
 * per key so the SMC is asked only once.
 */
module SmcReader {
  import opened Wrappers
  import opened Utils

  type FourCharCode = bv32

  /** A `char` widened to 32 bits as the platform's signed `char` is: bytes from 0x80 up carry ones into the top bytes. */
  function SignExtend(b: Byte): (r: bv32)
    ensures b < 0x80 ==> r == b as bv32
    ensures b >= 0x80 ==> r & 0xFFFF_FF00 == 0xFFFF_FF00
  {
    if b < 0x80 then b as bv32 else (b as bv32) | 0xFFFF_FF00
  }

  /**
   * `StringToFourCharCode` as written: the first four bytes of the key's
   * C string, each cast from signed `char` to a 32-bit word, shifted into
   * place and or-ed. A key of three bytes uses its terminating NUL; a
   * shorter one would read past the string.
   */
  function StringToFourCharCodeAsWritten(str: seq<Byte>): FourCharCode
    requires |str| >= 3
  {
    var bytes := str + [0];
    (SignExtend(bytes[0]) << 24) | (SignExtend(bytes[1]) << 16) | (SignExtend(bytes[2]) << 8) | SignExtend(bytes[3])
  }

  /** The same packing with each byte taken as unsigned. */
  function StringToFourCharCode(str: seq<Byte>): FourCharCode
    requires |str| >= 3
  {
    var bytes := str + [0];
    ((bytes[0] as bv32) << 24) | ((bytes[1] as bv32) << 16) | ((bytes[2] as bv32) << 8) | (bytes[3] as bv32)
  }

  /** `FourCharCodeToString`: the four bytes of the code, most significant first. */
  function FourCharCodeToString(code: FourCharCode): (r: seq<Byte>)
    ensures |r| == 4
  {
    [((code >> 24) & 0xFF) as Byte, ((code >> 16) & 0xFF) as Byte, ((code >> 8) & 0xFF) as Byte, (code & 0xFF) as Byte]
  }

  /** The code is big-endian: byte `k` of the key lands in byte `3 - k` of the word. */
  lemma FourCharCodeIsBigEndian(str: seq<Byte>)
    requires |str| >= 4
    ensures var code := StringToFourCharCode(str);
      (code >> 24) as Byte == str[0] && ((code >> 16) & 0xFF) as Byte == str[1] &&
      ((code >> 8) & 0xFF) as Byte == str[2] && (code & 0xFF) as Byte == str[3]
  {
    var bytes := str + [0];
    assert bytes[..4] == str[..4];
    PackUnpack(str[0], str[1], str[2], str[3]);
  }

  /** Packing four bytes and reading them back. */
  lemma PackUnpack(b0: Byte, b1: Byte, b2: Byte, b3: Byte)
    ensures var code := ((b0 as bv32) << 24) | ((b1 as bv32) << 16) | ((b2 as bv32) << 8) | (b3 as bv32);
      (code >> 24) as Byte == b0 && ((code >> 16) & 0xFF) as Byte == b1 &&
      ((code >> 8) & 0xFF) as Byte == b2 && (code & 0xFF) as Byte == b3
  {
  }

  /** Any four-byte key survives the trip through its code. */
  lemma KeyRoundTrip(str: seq<Byte>)
    requires |str| == 4
    ensures FourCharCodeToString(StringToFourCharCode(str)) == str
  {
    FourCharCodeIsBigEndian(str);
  }

  /** Any code survives the trip through its four bytes. */
  lemma CodeRoundTrip(code: FourCharCode)
    ensures StringToFourCharCode(FourCharCodeToString(code)) == code
  {
    var s := FourCharCodeToString(code);
    assert (s + [0])[..4] == s;
  }

  /** The code as written agrees with the unsigned packing on keys of plain ASCII. */
  lemma AsWrittenAgreesOnAscii(str: seq<Byte>)
    requires |str| >= 4
    requires forall k :: 0 <= k < 4 ==> str[k] < 0x80
    ensures StringToFourCharCodeAsWritten(str) == StringToFourCharCode(str)
  {
    var bytes := str + [0];
    assert bytes[0] == str[0] && bytes[1] == str[1] && bytes[2] == str[2] && bytes[3] == str[3];
  }

  /**
   * A key with a byte from 0x80 up does not survive the code as written:
   * the sign extension of its second byte overwrites the first.
   */
  lemma AsWrittenBreaksRoundTrip()
    ensures StringToFourCharCodeAsWritten([0x41, 0x80, 0x41, 0x41]) == 0xFF80_4141
    ensures FourCharCodeToString(StringToFourCharCodeAsWritten([0x41, 0x80, 0x41, 0x41])) != [0x41, 0x80, 0x41, 0x41]
  {
    var str: seq<Byte> := [0x41, 0x80, 0x41, 0x41];
    var bytes := str + [0];
    assert bytes[0] == 0x41 && bytes[1] == 0x80 && bytes[2] == 0x41 && bytes[3] == 0x41;
    assert SignExtend(0x80) == 0xFFFF_FF80;
    assert FourCharCodeToString(0xFF80_4141)[0] == 0xFF;
  }

  /** 256 to the power `n`. */
  function Pow256(n: nat): (r: nat)
    ensures r >= 1
  {
    if n == 0 then 1 else 256 * Pow256(n - 1)
  }

  /** The big-endian value of a byte string. */
  function BigEndian(s: seq<Byte>): (r: nat)
    ensures r < Pow256(|s|)
  {
    if s == [] then 0 else BigEndian(s[..|s| - 1]) * 256 + s[|s| - 1] as nat
  }

  /** One more byte of the accumulator loop: the value so far moves up one byte. */
  lemma BigEndianStep(s: seq<Byte>, i: nat, size: nat)
    requires i < size <= |s|
    ensures BigEndian(s[..i + 1]) * Pow256(size - 1 - i) ==
      BigEndian(s[..i]) * Pow256(size - i) + s[i] as nat * Pow256(size - 1 - i)
  {
    assert s[..i + 1][..i] == s[..i];
    var p := Pow256(size - 1 - i);
    assert Pow256(size - i) == 256 * p;
    ShiftByte(BigEndian(s[..i]), s[i] as nat, p);
  }

  lemma ShiftByte(x: nat, b: nat, p: nat)
    ensures (x * 256 + b) * p == x * (256 * p) + b * p
  {
  }

  /**
   * `BytesToUInt32`: adds each byte shifted into its big-endian place. The
   * source only calls it with four bytes; more would shift past 32 bits.
   */
  method BytesToUInt32(str: seq<Byte>, size: nat) returns (total: nat)
    requires size <= 4 && size <= |str|
    ensures total == BigEndian(str[..size])
    ensures total < 0x1_0000_0000
  {
    total := 0;
    for i := 0 to size
      invariant total == BigEndian(str[..i]) * Pow256(size - i)
    {
      BigEndianStep(str, i, size);
      total := total + str[i] as nat * Pow256(size - 1 - i);
    }
    assert Pow256(4) == 0x1_0000_0000;
    PowMonotone(size, 4);
  }

  lemma {:induction false} PowMonotone(a: nat, b: nat)
    requires a <= b
    ensures Pow256(a) <= Pow256(b)
    decreases b
  {
    if a < b {
      PowMonotone(a, b - 1);
    }
  }

  /** The description of a key: its data type code and data size. */
  datatype DataType = DataType(typeCode: FourCharCode, size: nat)

  /**
   * `DataType(str, size)`: the type named by a four-character string,
   * packed as written, so only a plain ASCII name is sure to unpack back.
   */
  function DataTypeFromString(str: seq<Byte>, size: nat): (r: DataType)
    requires |str| >= 3
    ensures |str| == 4 && (forall k :: 0 <= k < 4 ==> str[k] < 0x80) ==> FourCharCodeToString(r.typeCode) == str
    ensures r.size == size
  {
    if |str| == 4 && (forall k :: 0 <= k < 4 ==> str[k] < 0x80) then
      AsWrittenAgreesOnAscii(str); KeyRoundTrip(str); DataType(StringToFourCharCodeAsWritten(str), size)
    else DataType(StringToFourCharCodeAsWritten(str), size)
  }

  /** Why a call to the SMC throws. */
  datatype SmcError = KeyNotFound | NotPrivileged | UnknownError

  /**
   * One `GetKeyInfo` as a specification: the cached entry if there is one;
   * otherwise the SMC's answer, which is cached when the call succeeds.
   */
  function KeyInfoStep(cache: map<seq<Byte>, DataType>, key: seq<Byte>, smc: FourCharCode -> Result<DataType, SmcError>)
    : (Result<DataType, SmcError>, map<seq<Byte>, DataType>)
    requires |key| >= 3
  {
    if key in cache then (Ok(cache[key]), cache)
    else
      var answer := smc(StringToFourCharCodeAsWritten(key));
      if answer.Ok? then (answer, cache[key := answer.value]) else (answer, cache)
  }

  /**
   * Once a key's description has been fetched, asking again returns the
   * same description from the cache, whatever the SMC would now answer,
   * and leaves the cache as it was.
   */
  lemma CachedKeyInfoIsStable(cache: map<seq<Byte>, DataType>, key: seq<Byte>,
                              first: FourCharCode -> Result<DataType, SmcError>,
                              later: FourCharCode -> Result<DataType, SmcError>)
    requires |key| >= 3
    requires KeyInfoStep(cache, key, first).0.Ok?
    ensures var (r1, cache1) := KeyInfoStep(cache, key, first);
      KeyInfoStep(cache1, key, later) == (r1, cache1)
  {
  }

  /** A failed SMC call leaves the cache as it was, so the key is asked for again next time. */
  lemma FailedKeyInfoIsNotCached(cache: map<seq<Byte>, DataType>, key: seq<Byte>,
                                 smc: FourCharCode -> Result<DataType, SmcError>)
    requires |key| >= 3
    ensures KeyInfoStep(cache, key, smc).0.Err? ==> KeyInfoStep(cache, key, smc).1 == cache && key !in cache
    ensures KeyInfoStep(cache, key, smc).1.Keys == cache.Keys + (if KeyInfoStep(cache, key, smc).0.Ok? then {key} else {})
  {
  }

  class SmcKeyReader {
    var keyInfoCache: map<seq<Byte>, DataType>
    /** How many times the SMC has been asked for a key's description. */
    ghost var keyInfoCalls: nat

    constructor()
      ensures keyInfoCache == map[] && keyInfoCalls == 0
    {
      keyInfoCache := map[];
      keyInfoCalls := 0;
    }

    /**
     * `GetKeyInfo`: `smc` stands for the SMC's key-info call and its
     * exceptions.
     */
    method GetKeyInfo(key: seq<Byte>, smc: FourCharCode -> Result<DataType, SmcError>) returns (r: Result<DataType, SmcError>)
      requires |key| >= 3
      modifies this
      ensures (r, keyInfoCache) == KeyInfoStep(old(keyInfoCache), key, smc)
      ensures keyInfoCalls == old(keyInfoCalls) + (if key in old(keyInfoCache) then 0 else 1)
    {
      if key in keyInfoCache {
        return Ok(keyInfoCache[key]);
      }
      var code := StringToFourCharCodeAsWritten(key);
      keyInfoCalls := keyInfoCalls + 1;
      r := smc(code);
      if r.Ok? {
        keyInfoCache := keyInfoCache[key := r.value];
      }
    }
  }
}

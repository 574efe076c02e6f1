/**
 What HashParts feeds its hash (internal/variant/variant.go): each part behind
 its length as four big-endian bytes, the length truncated to 32 bits. Strings
 are byte strings, one char below 256 a byte; the hash itself is not modelled.
 */
module Encoding {
  import opened Wrappers

  const WIDTH: nat := 4
  const WORD := 0x1_0000_0000

  function Byte(n: int): char
    requires 0 <= n < 256
  {
    n as char
  }

  function BigEndian(n: nat, width: nat): (p: string)
    ensures |p| == width
  {
    if width == 0 then "" else BigEndian(n / 256, width - 1) + [Byte(n % 256)]
  }

  function ReadBigEndian(p: string): nat {
    if p == "" then 0 else 256 * ReadBigEndian(p[..|p| - 1]) + p[|p| - 1] as nat
  }

  function Pow256(width: nat): nat {
    if width == 0 then 1 else 256 * Pow256(width - 1)
  }

  lemma {:induction false} BigEndianReadsBack(n: nat, width: nat)
    requires n < Pow256(width)
    ensures ReadBigEndian(BigEndian(n, width)) == n
  {
    if width > 0 {
      BigEndianReadsBack(n / 256, width - 1);
      assert BigEndian(n, width)[..width - 1] == BigEndian(n / 256, width - 1);
    }
  }

  /** binary.BigEndian.PutUint32 of a length. */
  function Prefix(len: nat): (p: string)
    ensures |p| == 4
  {
    BigEndian(len % WORD, WIDTH)
  }

  function ReadPrefix(p: string): nat
    requires |p| == 4
  {
    ReadBigEndian(p)
  }

  lemma PrefixReadsBack(len: nat)
    ensures ReadPrefix(Prefix(len)) == len % WORD
  {
    assert Pow256(1) == 256 && Pow256(2) == 256 * Pow256(1) && Pow256(3) == 256 * Pow256(2);
    assert Pow256(WIDTH) == 256 * Pow256(3) == WORD;
    BigEndianReadsBack(len % WORD, WIDTH);
  }

  function Encode(parts: seq<string>): string {
    if parts == [] then ""
    else Prefix(|parts[0]|) + parts[0] + Encode(parts[1..])
  }

  /** Reads a part list back off the byte string. */
  function Decode(bytes: string): Option<seq<string>>
    decreases |bytes|
  {
    if bytes == "" then Some([])
    else if |bytes| < 4 then None
    else
      var n := ReadPrefix(bytes[..4]);
      if |bytes| < 4 + n then None
      else match Decode(bytes[4 + n..])
        case None => None
        case Some(rest) => Some([bytes[4..4 + n]] + rest)
  }

  ghost predicate AllShort(parts: seq<string>) {
    forall i | 0 <= i < |parts| :: |parts[i]| < WORD
  }

  ghost predicate IsBytes(s: string) {
    forall i | 0 <= i < |s| :: s[i] as int < 256
  }

  lemma DecodeFirst(p: string, part: string, rest: string)
    requires |p| == 4 && ReadPrefix(p) == |part| && Decode(rest).Some?
    ensures Decode(p + part + rest) == Some([part] + Decode(rest).value)
  {
    var bytes := p + part + rest;
    assert bytes[..4] == p;
    assert bytes[4..4 + |part|] == part;
    assert bytes[4 + |part|..] == rest;
  }

  lemma {:induction false} DecodeEncode(parts: seq<string>)
    requires AllShort(parts)
    ensures Decode(Encode(parts)) == Some(parts)
  {
    if parts != [] {
      DecodeEncode(parts[1..]);
      ReadsBack(parts[0]);
      DecodeFirst(Prefix(|parts[0]|), parts[0], Encode(parts[1..]));
      assert parts == [parts[0]] + parts[1..];
    }
  }

  lemma ReadsBack(part: string)
    requires |part| < WORD
    ensures ReadPrefix(Prefix(|part|)) == |part|
  {
    PrefixReadsBack(|part|);
  }

  lemma {:induction false} ReadIsBounded(p: string)
    requires IsBytes(p)
    ensures ReadBigEndian(p) < Pow256(|p|)
  {
    if p != "" {
      ReadIsBounded(p[..|p| - 1]);
    }
  }

  lemma PrefixIsBounded(p: string)
    requires |p| == 4 && IsBytes(p)
    ensures ReadPrefix(p) < WORD
  {
    assert Pow256(1) == 256 && Pow256(2) == 256 * Pow256(1) && Pow256(3) == 256 * Pow256(2);
    assert Pow256(4) == 256 * Pow256(3) == WORD;
    ReadIsBounded(p);
  }

  lemma {:induction false} DecodedPartsAreShort(bytes: string)
    requires IsBytes(bytes) && Decode(bytes).Some?
    ensures AllShort(Decode(bytes).value)
    decreases |bytes|
  {
    if bytes != "" {
      var n := ReadPrefix(bytes[..4]);
      PrefixIsBounded(bytes[..4]);
      DecodedPartsAreShort(bytes[4 + n..]);
    }
  }

  lemma {:induction false} BigEndianIsBytes(n: nat, width: nat)
    ensures IsBytes(BigEndian(n, width))
  {
    if width > 0 {
      BigEndianIsBytes(n / 256, width - 1);
    }
  }

  lemma {:induction false} EncodeIsBytes(parts: seq<string>)
    requires forall i | 0 <= i < |parts| :: IsBytes(parts[i])
    ensures IsBytes(Encode(parts))
  {
    if parts != [] {
      BigEndianIsBytes(|parts[0]| % WORD, WIDTH);
      EncodeIsBytes(parts[1..]);
    }
  }

  /** The byte string gives the part list back exactly when every part is shorter than 2^32 bytes. */
  lemma DecodableMeansShort(parts: seq<string>)
    requires forall i | 0 <= i < |parts| :: IsBytes(parts[i])
    ensures Decode(Encode(parts)) == Some(parts) <==> AllShort(parts)
  {
    if AllShort(parts) {
      DecodeEncode(parts);
    } else {
      EncodeIsBytes(parts);
      if Decode(Encode(parts)).Some? {
        DecodedPartsAreShort(Encode(parts));
      }
    }
  }

  /** So no two lists of short parts are hashed from the same bytes. */
  lemma EncodeInjective(a: seq<string>, b: seq<string>)
    requires AllShort(a) && AllShort(b) && Encode(a) == Encode(b)
    ensures a == b
  {
    DecodeEncode(a);
    DecodeEncode(b);
  }

  ghost predicate AllNul(s: string) {
    forall i | 0 <= i < |s| :: s[i] == 0 as char
  }

  /** One part of 2^32 NULs, say, is hashed from the same bytes as 2^30 + 1 empty parts. */
  lemma LongPartsCollide(long: string, many: seq<string>)
    requires long != "" && |long| % WORD == 0 && AllNul(long)
    requires 4 * |many| == 4 + |long| && forall i | 0 <= i < |many| :: many[i] == ""
    ensures [long] != many && Encode([long]) == Encode(many)
  {
    OnePart(long);
    var p := Prefix(|long|);
    NulsJoin(p, long);
    EmptiesMatch(many, p + long);
  }

  /** Such lists exist: the shortest are 2^32 NULs and 2^30 + 1 empty parts. */
  lemma SomePartsCollide() returns (long: string, many: seq<string>)
    ensures |long| == WORD && [long] != many && Encode([long]) == Encode(many)
  {
    long := Nuls(WORD);
    many := Blanks(WORD / 4 + 1);
    LongPartsCollide(long, many);
  }

  function Nuls(n: nat): (s: string)
    ensures |s| == n && AllNul(s)
  {
    seq(n, _ => 0 as char)
  }

  function Blanks(n: nat): (s: seq<string>)
    ensures |s| == n && forall i | 0 <= i < n :: s[i] == ""
  {
    seq(n, _ => "")
  }

  lemma EmptiesMatch(many: seq<string>, nuls: string)
    requires forall i | 0 <= i < |many| :: many[i] == ""
    requires |nuls| == 4 * |many| && AllNul(nuls)
    ensures Encode(many) == nuls
  {
    Empties(many);
    SameNuls(Encode(many), nuls);
  }

  lemma OnePart(part: string)
    ensures Encode([part]) == Prefix(|part|) + part
    ensures |part| % WORD == 0 ==> AllNul(Prefix(|part|))
  {
    assert Encode([part][1..]) == "";
    ZeroIsNuls(WIDTH);
  }

  lemma {:induction false} ZeroIsNuls(width: nat)
    ensures AllNul(BigEndian(0, width))
  {
    if width > 0 {
      ZeroIsNuls(width - 1);
    }
  }

  lemma NulsJoin(a: string, b: string)
    requires AllNul(a) && AllNul(b)
    ensures AllNul(a + b)
  {
  }

  lemma SameNuls(a: string, b: string)
    requires AllNul(a) && AllNul(b) && |a| == |b|
    ensures a == b
  {
  }

  lemma {:induction false} Empties(many: seq<string>)
    requires forall i | 0 <= i < |many| :: many[i] == ""
    ensures |Encode(many)| == 4 * |many| && AllNul(Encode(many))
  {
    if many != [] {
      Empties(many[1..]);
      OnePart("");
      NulsJoin(Prefix(0), Encode(many[1..]));
      assert Prefix(0) + "" == Prefix(0);
    }
  }

  lemma {:induction false} EncodeMore(parts: seq<string>, part: string)
    ensures Encode(parts + [part]) == Encode(parts) + (Prefix(|part|) + part)
  {
    if parts == [] {
      assert ([] + [part])[1..] == [];
    } else {
      EncodeMore(parts[1..], part);
      assert (parts + [part])[1..] == parts[1..] + [part];
    }
  }

  /** Two parts, byte for byte. */
  lemma TwoParts(parts: seq<string>)
    requires parts == ["ab", "c"]
    ensures Encode(parts) == [0 as char, 0 as char, 0 as char, 2 as char, 'a', 'b',
                              0 as char, 0 as char, 0 as char, 1 as char, 'c']
  {
    ShortPrefix(2);
    ShortPrefix(1);
    assert parts[1..] == ["c"];
    OnePart("c");
    assert Encode(parts) == Prefix(2) + "ab" + Encode(["c"]);
  }

  lemma ShortPrefix(n: nat)
    requires n < 256
    ensures Prefix(n) == [0 as char, 0 as char, 0 as char, n as char]
  {
    assert BigEndian(n, 1) == [n as char];
    ZeroIsNuls(3);
  }

  /** HashParts up to the digest: the bytes written into the running hash. */
  method HashParts(parts: seq<string>) returns (written: string)
    ensures written == Encode(parts)
  {
    written := "";
    for i := 0 to |parts|
      invariant written == Encode(parts[..i])
    {
      EncodeMore(parts[..i], parts[i]);
      assert parts[..i + 1] == parts[..i] + [parts[i]];
      written := written + Prefix(|parts[i]|);
      written := written + parts[i];
    }
    assert parts[..|parts|] == parts;
  }
}

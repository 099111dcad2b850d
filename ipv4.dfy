/** `getIpAddress`: the packed IPv4 address reported by the Wi-Fi service (an
    `Int` whose low byte is the first octet) rendered as a dotted quad, together
    with the inverse reading used to state what the text means. */
module Ipv4 {
  import opened Wrappers
  import opened KotlinInt
  import opened Decimal
  import opened Text

  /** Field `k` of the dotted quad: `(ip shr 8k) and 0xff`. */
  function Octet(ip: Int32, k: nat): (o: nat)
    requires k < 4
    ensures o < 256
  {
    AndFF(Shr(ip, 8 * k))
  }

  /** `String.format("%d.%d.%d.%d", ip and 0xff, ip shr 8 and 0xff, ...)`. */
  function FormatIp(ip: Int32): string
  {
    NatToString(Octet(ip, 0)) + "." + NatToString(Octet(ip, 1)) + "."
      + NatToString(Octet(ip, 2)) + "." + NatToString(Octet(ip, 3))
  }

  predicate IsOctets(b: seq<nat>) {
    |b| == 4 && forall k :: 0 <= k < 4 ==> b[k] < 256
  }

  /** Four octets packed little-endian (the first octet in the low byte) into an `Int`. */
  function Pack(b: seq<nat>): Int32
    requires IsOctets(b)
  {
    ToSigned(b[0] + 256 * b[1] + 65536 * b[2] + 16777216 * b[3])
  }

  /** A field of the dotted quad: canonical decimal text of a value below 256. */
  predicate IsOctetText(f: string) {
    IsDecimal(f) && ParseNat(f) < 256
  }

  /** The inverse of `FormatIp`: four dot-separated octet fields, or `None`. */
  function ParseIp(s: string): Option<Int32>
  {
    var f := Split(s, '.');
    if |f| == 4 && IsOctetText(f[0]) && IsOctetText(f[1]) && IsOctetText(f[2]) && IsOctetText(f[3])
    then Some(Pack([ParseNat(f[0]), ParseNat(f[1]), ParseNat(f[2]), ParseNat(f[3])]))
    else None
  }

  function Octets(ip: Int32): (b: seq<nat>)
    ensures IsOctets(b)
  {
    [Octet(ip, 0), Octet(ip, 1), Octet(ip, 2), Octet(ip, 3)]
  }

  /** The octets written out as floor divisions by powers of 256. */
  lemma OctetValues(ip: Int32)
    ensures Octet(ip, 0) == ip % 256
    ensures Octet(ip, 1) == (ip / 256) % 256
    ensures Octet(ip, 2) == (ip / 65536) % 256
    ensures Octet(ip, 3) == (ip / 16777216) % 256
  {
    Pow2Bytes();
  }

  lemma DivSteps(x: int)
    ensures x / 65536 == x / 256 / 256
    ensures x / 16777216 == x / 65536 / 256
    ensures x / TwoTo32 == x / 16777216 / 256
  {
  }

  lemma ModStep(x: int)
    ensures x == x % 256 + 256 * (x / 256)
  {
  }

  /** The four base-256 digits of `x` make up its low 32 bits. */
  lemma Unpack(x: int)
    ensures x % 256 + 256 * ((x / 256) % 256) + 65536 * ((x / 65536) % 256)
            + 16777216 * ((x / 16777216) % 256) == x % TwoTo32
  {
    DivSteps(x);
    var q1, q2, q3, q4 := x / 256, x / 65536, x / 16777216, x / TwoTo32;
    ModStep(x); ModStep(q1); ModStep(q2); ModStep(q3);
    assert x == x % 256 + 256 * (q1 % 256) + 65536 * (q2 % 256) + 16777216 * (q3 % 256) + TwoTo32 * q4;
  }

  /** A number assembled from four base-256 digits, less any multiple of 2^32,
      has those digits. */
  lemma Repack(b: seq<nat>, c: int, x: int)
    requires IsOctets(b)
    requires x == b[0] + 256 * b[1] + 65536 * b[2] + 16777216 * b[3] - TwoTo32 * c
    ensures x % 256 == b[0] && (x / 256) % 256 == b[1]
    ensures (x / 65536) % 256 == b[2] && (x / 16777216) % 256 == b[3]
  {
    DivSteps(x);
    assert x / 256 == b[1] + 256 * b[2] + 65536 * b[3] - 16777216 * c;
    assert x / 65536 == b[2] + 256 * b[3] - 65536 * c;
    assert x / 16777216 == b[3] - 256 * c;
  }

  /** The low 32 bits of an `Int`, read as unsigned. */
  lemma Low32(ip: Int32)
    ensures ip >= 0 ==> ip % TwoTo32 == ip
    ensures ip < 0 ==> ip % TwoTo32 == ip + TwoTo32
  {
  }

  /** Packing the four fields back little-endian recovers the address: no bit is lost. */
  lemma PackOctets(ip: Int32)
    ensures Pack(Octets(ip)) == ip
  {
    var b := Octets(ip);
    OctetValues(ip);
    Unpack(ip);
    Low32(ip);
    var u := b[0] + 256 * b[1] + 65536 * b[2] + 16777216 * b[3];
    assert u == ip % TwoTo32;
    assert Pack(b) == ToSigned(u);
  }

  /** Taking an `Int` packed from four octets apart gives the octets back. */
  lemma OctetsOfPack(b: seq<nat>)
    requires IsOctets(b)
    ensures Octets(Pack(b)) == b
  {
    var ip := Pack(b);
    OctetValues(ip);
    Repack(b, if ip < 0 then 1 else 0, ip);
  }

  /** The rendering is always four canonical decimal fields, each in 0..255 and
      each the matching octet of `ip`, separated by exactly three dots. */
  lemma {:induction false} FormatIpFields(ip: Int32)
    ensures Split(FormatIp(ip), '.') == [NatToString(Octet(ip, 0)), NatToString(Octet(ip, 1)),
                                         NatToString(Octet(ip, 2)), NatToString(Octet(ip, 3))]
    ensures forall k :: 0 <= k < 4 ==>
      IsOctetText(Split(FormatIp(ip), '.')[k]) && ParseNat(Split(FormatIp(ip), '.')[k]) == Octet(ip, k)
  {
    var f := [NatToString(Octet(ip, 0)), NatToString(Octet(ip, 1)),
              NatToString(Octet(ip, 2)), NatToString(Octet(ip, 3))];
    forall k | 0 <= k < 4 ensures '.' !in f[k] && ParseNat(f[k]) == Octet(ip, k) {
      IntToStringChars(Octet(ip, k), '.');
      ParseNatToString(Octet(ip, k));
    }
    JoinFour(f);
    SplitJoin(f, '.');
  }

  lemma JoinFour(f: seq<string>)
    requires |f| == 4
    ensures Join(f, '.') == f[0] + "." + f[1] + "." + f[2] + "." + f[3]
  {
    assert Join(f[3..], '.') == f[3];
    assert f[2..][1..] == f[3..];
    assert Join(f[2..], '.') == f[2] + "." + f[3];
    assert f[1..][1..] == f[2..];
    assert Join(f[1..], '.') == f[1] + "." + (f[2] + "." + f[3]);
  }

  /** Reading the rendered text back gives the packed address. */
  lemma ParseFormatIp(ip: Int32)
    ensures ParseIp(FormatIp(ip)) == Some(ip)
  {
    FormatIpFields(ip);
    PackOctets(ip);
  }

  /** Text that reads back as `ip` is the rendering of `ip`: its four fields are the
      canonical texts of the octets of `ip`. */
  lemma ParsedIsFormat(s: string, ip: Int32)
    requires ParseIp(s) == Some(ip)
    ensures s == FormatIp(ip)
  {
    var f := Split(s, '.');
    var b := [ParseNat(f[0]), ParseNat(f[1]), ParseNat(f[2]), ParseNat(f[3])];
    OctetsOfPack(b);
    forall k | 0 <= k < 4 ensures f[k] == NatToString(Octet(ip, k)) {
      NatToStringParse(f[k]);
    }
    JoinSplit(s, '.');
    JoinFour(f);
  }

  /** Only the text `FormatIp` produces reads back: the rendering is a bijection
      between `Int` values and canonical dotted quads. */
  lemma FormatParseIp(s: string, ip: Int32)
    ensures ParseIp(s) == Some(ip) <==> s == FormatIp(ip)
  {
    if s == FormatIp(ip) {
      ParseFormatIp(ip);
    }
    if ParseIp(s) == Some(ip) {
      ParsedIsFormat(s, ip);
    }
  }

  /** Without a Wi-Fi connection the service reports 0, which renders as the
      placeholder `0.0.0.0`. */
  lemma NoConnectionPlaceholder()
    ensures FormatIp(0) == "0.0.0.0"
  {
    OctetValues(0);
  }

  /** For instance, the octets 192, 168, 1, 42 packed little-endian render as `192.168.1.42`. */
  lemma ExampleAddress()
    ensures FormatIp(Pack([192, 168, 1, 42])) == "192.168.1.42"
  {
    OctetsOfPack([192, 168, 1, 42]);
  }
}

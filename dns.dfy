/**
 * DNS resource records as the consistency checker sees them, and the
 * reverse-lookup key of an address (what `dns.ReverseAddr(ip.String())`
 * computes for the address of an A or AAAA record).
 */
module Dns {

  datatype Option<T> = None | Some(value: T)

  /** An octet of an IP address (Go's `byte`). */
  type Byte = x: int | 0 <= x < 0x100

  /** The 16-bit type code of a resource record (Go's `uint16` Rrtype). */
  type RRType = t: int | 0 <= t < 0x1_0000

  /** Type codes: A and PTR from section 3.2.2 of RFC 1035, AAAA from section 2.1 of RFC 3596. */
  const TypeA: RRType := 1
  const TypePTR: RRType := 12
  const TypeAAAA: RRType := 28

  /** The type code of a record that is neither A, PTR nor AAAA. */
  type OtherType = t: RRType | t != TypeA && t != TypePTR && t != TypeAAAA witness 2

  /**
   * A resource record: an owner name (fully qualified, with its trailing dot)
   * and the payload the checker reads. Addresses are the bytes of a `net.IP`.
   */
  datatype RR =
    | A(name: string, addr: seq<Byte>)
    | AAAA(name: string, addr: seq<Byte>)
    | PTR(name: string, target: string)
    | Other(name: string, rrtype: OtherType)

  /** The record's type code (`r.Header().Rrtype`). */
  function Tag(r: RR): (t: RRType)
    ensures t == TypeA <==> r.A?
    ensures t == TypeAAAA <==> r.AAAA?
    ensures t == TypePTR <==> r.PTR?
  {
    match r
    case A(_, _) => TypeA
    case AAAA(_, _) => TypeAAAA
    case PTR(_, _) => TypePTR
    case Other(_, t) => t
  }

  /** Go's `strings.HasSuffix`. */
  predicate HasSuffix(s: string, suffix: string) {
    |suffix| <= |s| && s[|s| - |suffix|..] == suffix
  }

  const V4Zone := ".in-addr.arpa."
  const V6Zone := ".ip6.arpa."

  /** Decimal rendering of a non-negative number, without leading zeros (Go's `strconv.AppendInt(_, n, 10)`). */
  function Decimal(n: nat): string {
    if n < 10 then [Digit(n)] else Decimal(n / 10) + [Digit(n % 10)]
  }

  function Digit(d: nat): char
    requires d < 10
  {
    "0123456789"[d]
  }

  function HexDigit(d: nat): char
    requires d < 16
  {
    "0123456789abcdef"[d]
  }

  /** `net.IP.To4` succeeds on a 16-byte address: ten zero bytes, then 0xff, 0xff. */
  predicate IsV4Mapped(ip: seq<Byte>)
    requires |ip| == 16
  {
    (forall i :: 0 <= i < 10 ==> ip[i] == 0) && ip[10] == 0xff && ip[11] == 0xff
  }

  /** Whether the address is an IPv4 address in one of the two forms `net.IP` uses. */
  predicate IsV4(ip: seq<Byte>) {
    |ip| == 4 || (|ip| == 16 && IsV4Mapped(ip))
  }

  /** The octets of `q` in decimal, last octet first, each followed by a dot. */
  function OctetLabels(q: seq<Byte>): (s: string)
    ensures |q| > 0 ==> |s| > 0 && s[|s| - 1] == '.'
  {
    if q == [] then ""
    else Decimal(q[|q| - 1] as nat) + "." + OctetLabels(q[..|q| - 1])
  }

  /** The in-addr.arpa name of the four octets `q`: the octets in reverse order, in decimal. */
  function V4ReverseName(q: seq<Byte>): string
    requires |q| == 4
  {
    OctetLabels(q) + "in-addr.arpa."
  }

  /** The nibbles of `ip`, last byte first and low nibble before high nibble, each followed by a dot. */
  function Nibbles(ip: seq<Byte>): (s: string)
    ensures |s| == 4 * |ip|
    ensures |ip| > 0 ==> s[|s| - 1] == '.'
  {
    if ip == [] then ""
    else
      var b := ip[|ip| - 1] as nat;
      [HexDigit(b % 16), '.', HexDigit(b / 16), '.'] + Nibbles(ip[..|ip| - 1])
  }

  /** The ip6.arpa name of a 16-byte address (section 2.5 of RFC 3596). */
  function V6ReverseName(ip: seq<Byte>): string
    requires |ip| == 16
  {
    Nibbles(ip) + "ip6.arpa."
  }

  lemma V4ReverseNameZone(q: seq<Byte>)
    requires |q| == 4
    ensures HasSuffix(V4ReverseName(q), V4Zone)
  {
    var labels := OctetLabels(q);
    var k := V4ReverseName(q);
    assert k[|k| - |V4Zone|..] == [labels[|labels| - 1]] + "in-addr.arpa.";
  }

  lemma V6ReverseNameZone(ip: seq<Byte>)
    requires |ip| == 16
    ensures HasSuffix(V6ReverseName(ip), V6Zone)
  {
    var nib := Nibbles(ip);
    var k := V6ReverseName(ip);
    assert k[|k| - |V6Zone|..] == [nib[|nib| - 1]] + "ip6.arpa.";
  }

  /**
   * The reverse-lookup key of an address, or None when `dns.ReverseAddr`
   * rejects the text `net.IP.String` produces for it (any length other than
   * 4 or 16 bytes renders as "<nil>" or "?" followed by hex, which does not parse).
   */
  function ReverseKey(ip: seq<Byte>): (k: Option<string>)
    ensures k.Some? <==> |ip| == 4 || |ip| == 16
  {
    if |ip| == 4 then Some(V4ReverseName(ip))
    else if |ip| == 16 && IsV4Mapped(ip) then Some(V4ReverseName(ip[12..]))
    else if |ip| == 16 then Some(V6ReverseName(ip))
    else None
  }

  /**
   * The key of an IPv4 address (in either form) lies in the in-addr.arpa
   * zone and not in ip6.arpa; the key of any other 16-byte address lies in
   * ip6.arpa.
   */
  lemma ReverseKeyZone(ip: seq<Byte>)
    requires |ip| == 4 || |ip| == 16
    ensures IsV4(ip) ==> HasSuffix(ReverseKey(ip).value, V4Zone) && !HasSuffix(ReverseKey(ip).value, V6Zone)
    ensures !IsV4(ip) ==> HasSuffix(ReverseKey(ip).value, V6Zone)
  {
    if |ip| == 4 {
      V4ReverseNameZone(ip);
      V4NotV6(ReverseKey(ip).value);
    } else if IsV4Mapped(ip) {
      V4ReverseNameZone(ip[12..]);
      V4NotV6(ReverseKey(ip).value);
    } else {
      V6ReverseNameZone(ip);
    }
  }

  /** The two reverse zones are disjoint: no name lies in both. */
  lemma V4NotV6(k: string)
    requires HasSuffix(k, V4Zone)
    ensures !HasSuffix(k, V6Zone)
  {
    // ".arpa." is shared; the character before it is 'r' here and '6' in the IPv6 zone
    assert k[|k| - 7] == V4Zone[|V4Zone| - 7] == 'r';
  }
}

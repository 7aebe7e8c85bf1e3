/** What the binary evidence walks share: verdicts, the bound on container records, and fixed-width numbers. */
module Evidence {
  import opened Wrappers

  const MAX_RECORDS: nat := 10_000

  datatype Verdict = Accepted | BadFormat | Unsupported

  /** A big-endian 32-bit number. */
  function Number(b: seq<byte>): (n: nat)
    requires |b| == 4
    ensures n < 0x1_0000_0000
  {
    ((b[0] as nat * 256 + b[1] as nat) * 256 + b[2] as nat) * 256 + b[3] as nat
  }

  function Digits(n: nat): (b: seq<byte>)
    requires n < 0x1_0000_0000
    ensures |b| == 4
  {
    [(n / 0x100_0000) as byte, (n / 0x1_0000 % 256) as byte, (n / 256 % 256) as byte, (n % 256) as byte]
  }

  lemma DigitsNumber(n: nat)
    requires n < 0x1_0000_0000
    ensures Number(Digits(n)) == n
  {
    assert n / 0x1_0000 == n / 256 / 256 && n / 0x100_0000 == n / 256 / 256 / 256;
  }

  lemma NumberDigits(b: seq<byte>)
    requires |b| == 4
    ensures Digits(Number(b)) == b
  {
    var n := Number(b);
    assert n % 256 == b[3] as nat && n / 256 == (b[0] as nat * 256 + b[1] as nat) * 256 + b[2] as nat;
    assert n / 0x1_0000 == n / 256 / 256 && n / 0x100_0000 == n / 256 / 256 / 256;
  }

  // ---- Little-endian numbers ----

  function Flip(b: seq<byte>): (f: seq<byte>)
    requires |b| == 4
    ensures |f| == 4
  {
    [b[3], b[2], b[1], b[0]]
  }

  function Little(b: seq<byte>): (n: nat)
    requires |b| == 4
    ensures n < 0x1_0000_0000
  {
    Number(Flip(b))
  }

  function LittleDigits(n: nat): (b: seq<byte>)
    requires n < 0x1_0000_0000
    ensures |b| == 4
  {
    Flip(Digits(n))
  }

  lemma LittleDigitsNumber(n: nat)
    requires n < 0x1_0000_0000
    ensures Little(LittleDigits(n)) == n
  {
    assert Flip(Flip(Digits(n))) == Digits(n);
    DigitsNumber(n);
  }

  lemma LittleNumberDigits(b: seq<byte>)
    requires |b| == 4
    ensures LittleDigits(Little(b)) == b
  {
    NumberDigits(Flip(b));
    assert Flip(Flip(b)) == b;
  }

  /** A little-endian 16-bit number. */
  function Short(low: byte, high: byte): nat {
    low as nat + 256 * high as nat
  }

  /** A slice of a slice is a slice of the whole. */
  lemma SliceOfSlice(data: seq<byte>, start: nat, stop: nat, from: nat, to: nat)
    requires start <= stop <= |data| && from <= to <= stop - start
    ensures data[start..stop][from..to] == data[start + from..start + to]
  {
    forall k | 0 <= k < to - from ensures data[start..stop][from..to][k] == data[start + from..start + to][k] {}
  }
}

/** Fixed-width unsigned integers in the two byte orders the program packs with struct. */
module ByteOrder {
  import opened Common

  const U32_LIMIT: int := 0x1_0000_0000

  function PackU16Big(n: int): (r: seq<byte>)
    requires 0 <= n < 0x1_0000
    ensures |r| == 2
  {
    [(n / 0x100) as byte, (n % 0x100) as byte]
  }

  function UnpackU16Big(s: seq<byte>): nat
    requires |s| == 2
  {
    s[0] as int * 0x100 + s[1] as int
  }

  /** The four base-256 digits of n, most significant first. */
  function Digits(n: int): (d: (byte, byte, byte, byte))
    requires 0 <= n < U32_LIMIT
    ensures ((d.0 as int * 0x100 + d.1 as int) * 0x100 + d.2 as int) * 0x100 + d.3 as int == n
  {
    var q1 := n / 0x100;
    var q2 := q1 / 0x100;
    var q3 := q2 / 0x100;
    (q3 as byte, (q2 % 0x100) as byte, (q1 % 0x100) as byte, (n % 0x100) as byte)
  }

  /** struct format "!I"; struct.error outside the 32-bit range. */
  function PackU32Big(n: int): (r: Result<seq<byte>>)
    ensures r.Ok? <==> 0 <= n < U32_LIMIT
    ensures r.Ok? ==> |r.value| == 4 && UnpackU32Big(r.value) == n
  {
    if 0 <= n < U32_LIMIT then
      var d := Digits(n);
      Ok([d.0, d.1, d.2, d.3])
    else Err(StructError)
  }

  function UnpackU32Big(s: seq<byte>): (n: nat)
    requires |s| == 4
    ensures n < U32_LIMIT
    ensures n == 0x100_0000 * s[0] as int + 0x1_0000 * s[1] as int + 0x100 * s[2] as int + s[3] as int
  {
    ((s[0] as int * 0x100 + s[1] as int) * 0x100 + s[2] as int) * 0x100 + s[3] as int
  }

  /** struct format "<I"; struct.error outside the 32-bit range. */
  function PackU32Little(n: int): (r: Result<seq<byte>>)
    ensures r.Ok? <==> 0 <= n < U32_LIMIT
    ensures r.Ok? ==> |r.value| == 4 && UnpackU32Little(r.value) == n
  {
    if 0 <= n < U32_LIMIT then
      var d := Digits(n);
      Ok([d.3, d.2, d.1, d.0])
    else Err(StructError)
  }

  function UnpackU32Little(s: seq<byte>): (n: nat)
    requires |s| == 4
    ensures n < U32_LIMIT
    ensures n == s[0] as int + 0x100 * s[1] as int + 0x1_0000 * s[2] as int + 0x100_0000 * s[3] as int
  {
    ((s[3] as int * 0x100 + s[2] as int) * 0x100 + s[1] as int) * 0x100 + s[0] as int
  }
}

/**
 * The permission view of a file mode: the nine POSIX.1 permission bits of `<sys/stat.h>`
 * (S_IRUSR ... S_IXOTH) as read/write/execute flags for owner, group and others, and the
 * base-8 rendering of those nine bits.
 *
 * JavaScript applies `<<`, `>>` and `&` to the 32-bit two's-complement pattern of a number
 * (ECMAScript ToInt32), so a mode is kept here as that pattern, a `bv32`.
 */
module Permissions {

  datatype Triple = Triple(owner: bool, group: bool, others: bool)

  datatype Permissions = Permissions(read: Triple, write: Triple, execute: Triple)

  const S_IRUSR: bv32 := 0x100
  const S_IWUSR: bv32 := 0x80
  const S_IXUSR: bv32 := 0x40
  const S_IRGRP: bv32 := 0x20
  const S_IWGRP: bv32 := 0x10
  const S_IXGRP: bv32 := 0x8
  const S_IROTH: bv32 := 0x4
  const S_IWOTH: bv32 := 0x2
  const S_IXOTH: bv32 := 0x1

  /** JavaScript's `x >> 6`: a sign-propagating shift of a 32-bit pattern. */
  function ShiftRight6(x: bv32): bv32 {
    if x & 0x8000_0000 == 0 then x >> 6 else (x >> 6) | 0xFC00_0000
  }

  /**
   * `getPermissions` on a mode: owner is `mode >> 6`, group `(mode << 3) >> 6` and others
   * `(mode << 6) >> 6`, each masked with `& 4` (read), `& 2` (write) and `& 1` (execute).
   * Whatever the high bits, and although the left shifts may overflow 32 bits, each flag is
   * exactly the matching POSIX permission bit of the mode.
   */
  function Decode(mode: bv32): (p: Permissions)
    ensures p.read == Triple(mode & S_IRUSR != 0, mode & S_IRGRP != 0, mode & S_IROTH != 0)
    ensures p.write == Triple(mode & S_IWUSR != 0, mode & S_IWGRP != 0, mode & S_IWOTH != 0)
    ensures p.execute == Triple(mode & S_IXUSR != 0, mode & S_IXGRP != 0, mode & S_IXOTH != 0)
  {
    var owner := OwnerClass(mode);
    var group := GroupClass(mode);
    var others := OthersClass(mode);
    Permissions(
      Triple(owner & 4 != 0, group & 4 != 0, others & 4 != 0),
      Triple(owner & 2 != 0, group & 2 != 0, others & 2 != 0),
      Triple(owner & 1 != 0, group & 1 != 0, others & 1 != 0))
  }

  /** `mode >> 6`: bits 4, 2 and 1 are the owner's read, write and execute bits. */
  function OwnerClass(mode: bv32): (c: bv32)
    ensures c & 4 != 0 <==> mode & S_IRUSR != 0
    ensures c & 2 != 0 <==> mode & S_IWUSR != 0
    ensures c & 1 != 0 <==> mode & S_IXUSR != 0
  {
    ShiftRight6(mode)
  }

  /** `(mode << 3) >> 6`: bits 4, 2 and 1 are the group's read, write and execute bits. */
  function GroupClass(mode: bv32): (c: bv32)
    ensures c & 4 != 0 <==> mode & S_IRGRP != 0
    ensures c & 2 != 0 <==> mode & S_IWGRP != 0
    ensures c & 1 != 0 <==> mode & S_IXGRP != 0
  {
    ShiftRight6(mode << 3)
  }

  /** `(mode << 6) >> 6`: bits 4, 2 and 1 are the others' read, write and execute bits. */
  function OthersClass(mode: bv32): (c: bv32)
    ensures c & 4 != 0 <==> mode & S_IROTH != 0
    ensures c & 2 != 0 <==> mode & S_IWOTH != 0
    ensures c & 1 != 0 <==> mode & S_IXOTH != 0
  {
    ShiftRight6(mode << 6)
  }

  /** The base-8 digit character for `d`. */
  function Digit(d: nat): (c: char)
    requires d < 8
    ensures '0' <= c <= '7' && (c - '0') as nat == d
  {
    ('0' as int + d) as char
  }

  /** `Number.prototype.toString(8)` on a non-negative integer: base-8 digits, no leading zeros. */
  function OctalString(n: nat): (s: string)
    ensures 1 <= |s|
    ensures forall i :: 0 <= i < |s| ==> '0' <= s[i] <= '7'
    ensures n > 0 ==> s[0] != '0'
  {
    if n < 8 then [Digit(n)] else OctalString(n / 8) + [Digit(n % 8)]
  }

  /** The number a string of base-8 digits stands for. */
  function OctalValue(s: string): nat
    requires forall i :: 0 <= i < |s| ==> '0' <= s[i] <= '7'
  {
    if s == [] then 0 else OctalValue(s[..|s| - 1]) * 8 + (s[|s| - 1] - '0') as nat
  }

  lemma {:induction false} OctalRoundTrip(n: nat)
    ensures OctalValue(OctalString(n)) == n
  {
    var s := OctalString(n);
    if n >= 8 {
      OctalRoundTrip(n / 8);
      assert s[..|s| - 1] == OctalString(n / 8);
      assert OctalValue(s) == OctalValue(OctalString(n / 8)) * 8 + n % 8;
    }
  }

  /** How many digits `OctalString` writes: one below 8, two below 64, three below 512. */
  lemma {:induction false} OctalLength(n: nat)
    requires n < 512
    ensures |OctalString(n)| == if n < 8 then 1 else if n < 64 then 2 else 3
  {
    if n >= 8 {
      OctalLength(n / 8);
    }
  }

  /** The value of the low nine bits of a mode. */
  function PermissionBits(mode: bv32): (n: nat)
    ensures n < 512
  {
    (mode & 0x1FF) as int
  }

  /** `getOctalPermissions` on a mode: `(mode & 0o777).toString(8)`, so "700" for 0o700, "55" for 0o055. */
  function OctalPermissions(mode: bv32): (s: string)
    ensures 1 <= |s| <= 3
    ensures forall i :: 0 <= i < |s| ==> '0' <= s[i] <= '7'
    ensures OctalValue(s) == PermissionBits(mode)
    ensures PermissionBits(mode) > 0 ==> s[0] != '0'
    ensures PermissionBits(mode) == 0 ==> s == "0"
  {
    OctalLength(PermissionBits(mode));
    OctalRoundTrip(PermissionBits(mode));
    OctalString(PermissionBits(mode))
  }

  /** The octal digit of one class: read counts 4, write 2, execute 1. */
  function ClassDigit(read: bool, write: bool, execute: bool): nat {
    (if read then 4 else 0) + (if write then 2 else 0) + (if execute then 1 else 0)
  }

  lemma DigitValue(d: bv32)
    requires d <= 7
    ensures d as int == ClassDigit(d & 4 != 0, d & 2 != 0, d & 1 != 0)
  {
  }

  lemma OwnerDigit(mode: bv32)
    ensures ((mode >> 6) & 7) as int == ClassDigit(mode & S_IRUSR != 0, mode & S_IWUSR != 0, mode & S_IXUSR != 0)
  {
    var a := (mode >> 6) & 7;
    DigitValue(a);
    assert (a & 4 != 0, a & 2 != 0, a & 1 != 0) == (mode & S_IRUSR != 0, mode & S_IWUSR != 0, mode & S_IXUSR != 0);
  }

  lemma GroupDigit(mode: bv32)
    ensures ((mode >> 3) & 7) as int == ClassDigit(mode & S_IRGRP != 0, mode & S_IWGRP != 0, mode & S_IXGRP != 0)
  {
    var b := (mode >> 3) & 7;
    DigitValue(b);
    assert (b & 4 != 0, b & 2 != 0, b & 1 != 0) == (mode & S_IRGRP != 0, mode & S_IWGRP != 0, mode & S_IXGRP != 0);
  }

  lemma OthersDigit(mode: bv32)
    ensures (mode & 7) as int == ClassDigit(mode & S_IROTH != 0, mode & S_IWOTH != 0, mode & S_IXOTH != 0)
  {
    var c := mode & 7;
    DigitValue(c);
    assert (c & 4 != 0, c & 2 != 0, c & 1 != 0) == (mode & S_IROTH != 0, mode & S_IWOTH != 0, mode & S_IXOTH != 0);
  }

  lemma LowNineBits(mode: bv32)
    ensures PermissionBits(mode)
      == ((mode >> 6) & 7) as int * 64 + ((mode >> 3) & 7) as int * 8 + (mode & 7) as int
  {
    var a, b, c := (mode >> 6) & 7, (mode >> 3) & 7, mode & 7;
    assert mode & 0x1FF == a * 64 + b * 8 + c;
  }

  /**
   * The two views agree: the octal string is, digit by digit, owner, group and others
   * of `Decode`, with read worth 4, write 2 and execute 1.
   */
  lemma OctalMatchesDecode(mode: bv32)
    ensures var p := Decode(mode);
      OctalValue(OctalPermissions(mode))
        == 64 * ClassDigit(p.read.owner, p.write.owner, p.execute.owner)
         + 8 * ClassDigit(p.read.group, p.write.group, p.execute.group)
         + ClassDigit(p.read.others, p.write.others, p.execute.others)
  {
    var n := PermissionBits(mode);
    OctalRoundTrip(n);
    LowNineBits(mode);
    OwnerDigit(mode);
    GroupDigit(mode);
    OthersDigit(mode);
    var x: int, y: int, z: int := ((mode >> 6) & 7) as int, ((mode >> 3) & 7) as int, (mode & 7) as int;
    assert n == x * 64 + y * 8 + z;
  }

  /**
   * The example of `getOctalPermissions`' documentation, mode 0o755: the string "755", and
   * everything for the owner, read and execute for group and others.
   */
  lemma Mode755()
    ensures OctalPermissions(0x1ED) == "755"
    ensures Decode(0x1ED) == Permissions(Triple(true, true, true), Triple(true, false, false), Triple(true, true, true))
  {
    assert PermissionBits(0x1ED) == 493;
    assert OctalString(7) == "7";
    assert OctalString(61) == "75";
  }

  /** Mode 0o055 has no owner bits, and `toString(8)` writes no leading zero: "55", two digits. */
  lemma Mode055()
    ensures OctalPermissions(0x2D) == "55"
  {
    assert PermissionBits(0x2D) == 45;
    assert OctalString(5) == "5";
    assert OctalString(45) == "55";
  }

  /**
   * The example of `getPermissions`' documentation, mode 0o770: read, write and execute for
   * owner and group, nothing for the others.
   */
  lemma Mode770()
    ensures Decode(0x1F8) == Permissions(Triple(true, true, false), Triple(true, true, false), Triple(true, true, false))
  {
  }
}

/** The control elements of fixed layout (`sch_subh` in lib/src/common/pdu.cc; TS 36.321 section 6.1.3):
    the bytes their setters write and what their getters make of the bytes they find. */
module ControlElements {
  import opened Buffers
  import opened BitPacking

  // ---------- the setters ----------

  /** `set_c_rnti`: two bytes, the high one first. */
  function CRntiBytes(crnti: nat): (b: seq<uint8>)
    requires crnti < 0x10000
    ensures |b| == 2
  {
    [crnti / 0x100, crnti % 0x100]
  }

  /** `set_con_res_id`: the low 48 bits in six bytes, the highest first. */
  function ConResIdBytes(id: nat): (b: seq<uint8>)
    ensures |b| == 6
  {
    [id / 0x10000000000 % 0x100, id / 0x100000000 % 0x100, id / 0x1000000 % 0x100, id / 0x10000 % 0x100,
     id / 0x100 % 0x100, id % 0x100]
  }

  /** `phr_report_table`: -23 to 40 dB in steps of one. */
  function PhrReport(phr: real): (b: uint8)
    ensures b < 64
  {
    if phr < -23.0 then 0 else if phr > 40.0 then 63 else PhrFloor(phr); (phr + 23.0).Floor
  }

  lemma PhrFloor(phr: real)
    requires -23.0 <= phr <= 40.0
    ensures 0 <= (phr + 23.0).Floor < 64
  {
  }

  /** `set_ta_cmd`. */
  function TaByte(ta: nat): uint8 { ta % 64 }

  // ---------- the getters ----------

  function GetCRnti(b: seq<uint8>, at: nat): nat
    requires at + 2 <= |b|
  {
    0x100 * Octet(b, at) + Octet(b, at + 1)
  }

  function GetConResId(b: seq<uint8>, at: nat): nat
    requires at + 6 <= |b|
  {
    0x10000000000 * Octet(b, at) + 0x100000000 * Octet(b, at + 1) + 0x1000000 * Octet(b, at + 2)
    + 0x10000 * Octet(b, at + 3) + 0x100 * Octet(b, at + 4) + Octet(b, at + 5)
  }

  function GetPhr(b: seq<uint8>, at: nat): int
    requires at < |b|
  {
    Octet(b, at) % 64 - 23
  }

  function GetTaCmd(b: seq<uint8>, at: nat): nat
    requires at < |b|
  {
    Octet(b, at) % 64
  }

  function Octet(b: seq<uint8>, i: nat): nat
    requires i < |b|
  {
    b[i]
  }

  // ---------- every value comes back ----------

  lemma CRntiComesBack(b: seq<uint8>, at: nat, crnti: nat)
    requires crnti < 0x10000 && At(b, at, CRntiBytes(crnti))
    ensures GetCRnti(b, at) == crnti
  {
    var s := CRntiBytes(crnti);
    assert b[at + 0] == s[0] && b[at + 1] == s[1];
  }

  /** Of a wider number the low 48 bits come back. */
  lemma ConResIdComesBack(b: seq<uint8>, at: nat, id: nat)
    requires At(b, at, ConResIdBytes(id))
    ensures GetConResId(b, at) == id % 0x1000000000000
  {
    var s := ConResIdBytes(id);
    assert b[at + 0] == s[0] && b[at + 1] == s[1] && b[at + 2] == s[2];
    assert b[at + 3] == s[3] && b[at + 4] == s[4] && b[at + 5] == s[5];
    Digit(id, 0x100);
    Digit(id, 0x10000);
    Digit(id, 0x1000000);
    Digit(id, 0x100000000);
    Digit(id, 0x10000000000);
  }

  /** One more byte of a number. */
  lemma Digit(n: nat, m: nat)
    requires m > 0
    ensures n % (0x100 * m) == m * (n / m % 0x100) + n % m
  {
    var q, r := n / m, n % m;
    var a, b := q / 0x100, q % 0x100;
    Regrouped(m, q, a, b);
    AtMost(m, b);
    UniqueRemainder(n, 0x100 * m, a, m * b + r);
  }

  lemma Regrouped(m: nat, q: nat, a: nat, b: nat)
    requires q == 0x100 * a + b
    ensures m * q == a * (0x100 * m) + m * b
  {
  }

  lemma AtMost(m: nat, b: nat)
    requires b <= 0xFF
    ensures 0 <= m * b <= 0xFF * m
  {
  }

  /** The power headroom comes back rounded down to whole decibels and limited to -23 .. 40. */
  lemma PhrComesBack(b: seq<uint8>, at: nat, phr: real)
    requires At(b, at, [PhrReport(phr)])
    ensures GetPhr(b, at) == if phr < -23.0 then -23 else if phr > 40.0 then 40 else phr.Floor
  {
    assert b[at + 0] == [PhrReport(phr)][0];
    assert -23.0 <= phr <= 40.0 ==> (phr + 23.0).Floor == phr.Floor + 23;
  }

  /** Of a timing advance the low six bits come back. */
  lemma TaCmdComesBack(b: seq<uint8>, at: nat, ta: nat)
    requires At(b, at, [TaByte(ta)])
    ensures GetTaCmd(b, at) == ta % 64
  {
    assert b[at + 0] == [TaByte(ta)][0];
  }
}

/** Packet identifiers: 16-bit arithmetic that skips 0 (section 2.2.1 of MQTT 5.0). */
module PacketId {

  const WRAP := 0x1_0000

  type Pid = p: int | 0 < p < 0x1_0000 witness 1

  type u16 = u: int | 0 <= u < 0x1_0000

  /** `Pid + u16`, by way of the overflow flag of the 16-bit addition. */
  function Add(p: Pid, u: u16): Pid {
    if p + u < WRAP then p + u else p + u - WRAP + 1
  }

  /** `Pid - u16` */
  function Sub(p: Pid, u: u16): Pid {
    if p - u == 0 then WRAP - 1 else if p - u > 0 then p - u else p - u + WRAP - 1
  }

  /** Both are addition and subtraction modulo 65535 on 1..65535. */
  lemma ArithmeticIsModular(p: Pid, u: u16)
    ensures Add(p, u) - 1 == (p - 1 + u) % 65535
    ensures Sub(p, u) - 1 == (p - 1 - u) % 65535
  {
  }

  lemma AddSubInverse(p: Pid, u: u16)
    ensures Sub(Add(p, u), u) == p && Add(Sub(p, u), u) == p
  {
  }

  /** The identifiers `next_pid` hands out, the first one after `last` being number 0. */
  function Issued(last: Pid, k: nat): Pid {
    if k == 0 then Add(last, 1) else Add(Issued(last, k - 1), 1)
  }

  lemma {:induction false} IssuedIsModular(last: Pid, k: nat)
    ensures Issued(last, k) - 1 == (last + k) % 65535
  {
    if k > 0 { IssuedIsModular(last, k - 1); }
  }

  /** Two identifiers are equal exactly when a whole number of rounds lies between them. */
  lemma SameIdentifierIff(last: Pid, i: nat, j: nat)
    requires i <= j
    ensures Issued(last, i) == Issued(last, j) <==> (j - i) % 65535 == 0
  {
    IssuedIsModular(last, i);
    IssuedIsModular(last, j);
    SameRemainderIff(last + i, last + j);
  }

  lemma SameRemainderIff(a: nat, b: nat)
    requires a <= b
    ensures a % 65535 == b % 65535 <==> (b - a) % 65535 == 0
  {
    var q, d := b / 65535 - a / 65535, b % 65535 - a % 65535;
    assert b - a == 65535 * q + d && -65535 < d < 65535;
  }

  /** Any 65535 consecutive identifiers are pairwise distinct. */
  lemma ConsecutiveAreDistinct(last: Pid, from: nat)
    ensures forall i, j :: from <= i < j < from + 65535 ==> Issued(last, i) != Issued(last, j)
  {
    forall i, j | from <= i < j < from + 65535 ensures Issued(last, i) != Issued(last, j) {
      SameIdentifierIff(last, i, j);
    }
  }
}

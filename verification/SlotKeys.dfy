/** The idempotency key of a scheduled slot, as text: how the key of a slot is printed, and that it can
    be read back. */
module SlotKeys {
  // ---------------------------------------------------------------- decimal numbers

  function Digit(n: nat): char
    requires n < 10
  {
    ('0' as int + n) as char
  }

  function PrintNat(n: nat): string {
    if n < 10 then [Digit(n)] else PrintNat(n / 10) + [Digit(n % 10)]
  }

  /** How a template literal prints an integer. */
  function PrintInt(n: int): string {
    if n < 0 then "-" + PrintNat(-n) else PrintNat(n)
  }

  function ParseNat(s: string): int {
    if s == [] then 0 else ParseNat(s[..|s| - 1]) * 10 + (s[|s| - 1] as int - '0' as int)
  }

  function ParseInt(s: string): int {
    if s != [] && s[0] == '-' then -ParseNat(s[1..]) else ParseNat(s)
  }

  lemma {:induction false} PrintNatDigits(n: nat)
    ensures PrintNat(n) != [] && forall k :: 0 <= k < |PrintNat(n)| ==> '0' <= PrintNat(n)[k] <= '9'
  {
    if n >= 10 { PrintNatDigits(n / 10); }
  }

  lemma {:induction false} ParsePrintNat(n: nat)
    ensures ParseNat(PrintNat(n)) == n
  {
    if n >= 10 {
      ParsePrintNat(n / 10);
      assert PrintNat(n)[..|PrintNat(n)| - 1] == PrintNat(n / 10);
    } else {
      assert PrintNat(n)[..0] == [];
    }
  }

  lemma ParsePrintInt(n: int)
    ensures ParseInt(PrintInt(n)) == n
    ensures forall k :: 0 <= k < |PrintInt(n)| ==> PrintInt(n)[k] != '/'
  {
    var m := if n < 0 then -n else n;
    PrintNatDigits(m);
    ParsePrintNat(m);
    if n < 0 { assert PrintInt(n)[1..] == PrintNat(m); }
  }

  // ---------------------------------------------------------------- slot keys

  const SCHEDULE_KEY_PREFIX := "@schedule/"

  function SlotKeyFor(kind: string, slotStartMs: int): string {
    SCHEDULE_KEY_PREFIX + kind + "/" + PrintInt(slotStartMs)
  }

  lemma LastSlash(a: string, x: string, b: string, y: string)
    requires a + "/" + x == b + "/" + y
    requires forall k :: 0 <= k < |x| ==> x[k] != '/'
    requires forall k :: 0 <= k < |y| ==> y[k] != '/'
    ensures a == b && x == y
  {
    var s := a + "/" + x;
    assert s[|a|] == '/' && s[|b|] == '/';
    assert forall k :: |a| < k < |s| ==> s[k] == x[k - |a| - 1];
    assert forall k :: |b| < k < |s| ==> s[k] == y[k - |b| - 1];
    assert |a| == |b|;
    assert a == s[..|a|] && b == s[..|b|];
    assert x == s[|a| + 1..] && y == s[|b| + 1..];
  }

  /** Distinct (type, slot) pairs have distinct keys, whatever the type names contain. */
  lemma SlotKeyInjective(kind1: string, slot1: int, kind2: string, slot2: int)
    ensures SlotKeyFor(kind1, slot1) == SlotKeyFor(kind2, slot2) <==> kind1 == kind2 && slot1 == slot2
  {
    if SlotKeyFor(kind1, slot1) == SlotKeyFor(kind2, slot2) {
      ParsePrintInt(slot1);
      ParsePrintInt(slot2);
      LastSlash(SCHEDULE_KEY_PREFIX + kind1, PrintInt(slot1), SCHEDULE_KEY_PREFIX + kind2, PrintInt(slot2));
      assert (SCHEDULE_KEY_PREFIX + kind1)[|SCHEDULE_KEY_PREFIX|..] == kind1;
      assert (SCHEDULE_KEY_PREFIX + kind2)[|SCHEDULE_KEY_PREFIX|..] == kind2;
    }
  }
}

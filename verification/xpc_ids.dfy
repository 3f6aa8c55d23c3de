/**
 * Correlation ids: a fixed per-process prefix and a pre-incremented counter
 * rendered with `Number.prototype.toString(36)`.
 */
module XpcIds {

  /** The digit `d` of radix 36, lower case as JavaScript writes it. */
  function DigitChar(d: nat): (c: char)
    requires d < 36
    ensures IsDigit36(c)
  {
    if d < 10 then ('0' as int + d) as char else ('a' as int + (d - 10)) as char
  }

  predicate IsDigit36(c: char) {
    ('0' <= c <= '9') || ('a' <= c <= 'z')
  }

  function DigitValue(c: char): int {
    if '0' <= c <= '9' then c as int - '0' as int else c as int - 'a' as int + 10
  }

  /** `n.toString(36)`: most significant digit first, no leading zeros. */
  function Base36(n: nat): (s: string)
    ensures |s| >= 1
    ensures forall i :: 0 <= i < |s| ==> IsDigit36(s[i])
    ensures n >= 36 ==> s[0] != '0'
  {
    if n < 36 then [DigitChar(n)] else Base36(n / 36) + [DigitChar(n % 36)]
  }

  /** Reads a radix-36 numeral back (the inverse of Base36). */
  function ParseBase36(s: string): int {
    if |s| == 0 then 0 else ParseBase36(s[..|s| - 1]) * 36 + DigitValue(s[|s| - 1])
  }

  lemma {:induction false} ParseBase36OfBase36(n: nat)
    ensures ParseBase36(Base36(n)) == n
  {
    var s := Base36(n);
    if n < 36 {
      assert s[..|s| - 1] == [];
    } else {
      assert s[..|s| - 1] == Base36(n / 36);
      ParseBase36OfBase36(n / 36);
    }
  }

  /** Distinct counters render to distinct numerals. */
  lemma Base36Injective(m: nat, n: nat)
    ensures Base36(m) == Base36(n) <==> m == n
  {
    if Base36(m) == Base36(n) {
      ParseBase36OfBase36(m);
      ParseBase36OfBase36(n);
    }
  }

  /** Coordinator id: `${prefix}-${n.toString(36)}`. */
  function XpcId(prefix: string, n: nat): (id: string)
    ensures |id| > |prefix| + 1 && id[..|prefix|] == prefix && id[|prefix|] == '-'
    ensures forall i | |prefix| < i < |id| :: IsDigit36(id[i])
  {
    prefix + "-" + Base36(n)
  }

  /** Worker id: `r-${prefix}-${n.toString(36)}`. */
  function RendererId(prefix: string, n: nat): (id: string)
    ensures |id| > |prefix| + 3 && id[..2] == "r-" && id[2..|prefix| + 2] == prefix && id[|prefix| + 2] == '-'
    ensures forall i | |prefix| + 2 < i < |id| :: IsDigit36(id[i])
  {
    "r-" + prefix + "-" + Base36(n)
  }

  /** Within one process (one prefix) no coordinator id repeats. */
  lemma XpcIdInjective(prefix: string, m: nat, n: nat)
    ensures XpcId(prefix, m) == XpcId(prefix, n) <==> m == n
  {
    var a, b := XpcId(prefix, m), XpcId(prefix, n);
    if a == b {
      assert a[|prefix| + 1..] == Base36(m);
      assert b[|prefix| + 1..] == Base36(n);
      Base36Injective(m, n);
    }
  }

  /** Within one worker (one prefix) no worker id repeats. */
  lemma RendererIdInjective(prefix: string, m: nat, n: nat)
    ensures RendererId(prefix, m) == RendererId(prefix, n) <==> m == n
  {
    var a, b := RendererId(prefix, m), RendererId(prefix, n);
    if a == b {
      assert a[|prefix| + 3..] == Base36(m);
      assert b[|prefix| + 3..] == Base36(n);
      Base36Injective(m, n);
    }
  }
}

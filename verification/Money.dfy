/** Money: incoming amounts are exact reals, stored amounts are whole cents. */
module Money {
  /** `Math.round`: the nearest integer, halves upwards. */
  function RoundHalfUp(x: real): int {
    (x + 0.5).Floor
  }

  /** `round2(amount)`, in cents: what a `numeric(12,2)` column keeps. */
  function Cents(amount: real): int {
    RoundHalfUp(amount * 100.0)
  }

  function Total(amounts: seq<real>): real {
    if amounts == [] then 0.0 else amounts[0] + Total(amounts[1..])
  }

  /** The sum of amounts that are rounded one by one. */
  function SumOfCents(amounts: seq<real>): int {
    if amounts == [] then 0 else Cents(amounts[0]) + SumOfCents(amounts[1..])
  }

  /** What rounding one amount to the cent leaves over, in cents. */
  function Residue(amount: real): (r: real)
    ensures -0.5 <= r < 0.5
  {
    amount * 100.0 - Cents(amount) as real
  }

  function SumOfResidues(amounts: seq<real>): real {
    if amounts == [] then 0.0 else Residue(amounts[0]) + SumOfResidues(amounts[1..])
  }

  /** The cents that the left-over parts of several amounts add up to. */
  function Carry(amounts: seq<real>): int {
    RoundHalfUp(SumOfResidues(amounts))
  }

  predicate WholeCents(amount: real) {
    amount * 100.0 == (amount * 100.0).Floor as real
  }

  lemma RoundWhole(x: real, k: int)
    requires x == k as real
    ensures RoundHalfUp(x) == k
  {
  }

  lemma {:induction false} TotalSplits(amounts: seq<real>)
    ensures Total(amounts) * 100.0 == SumOfCents(amounts) as real + SumOfResidues(amounts)
  {
    if amounts != [] {
      TotalSplits(amounts[1..]);
    }
  }

  /** Rounding a sum is rounding its terms and then carrying. */
  lemma RoundedSum(amounts: seq<real>)
    ensures Cents(Total(amounts)) == SumOfCents(amounts) + Carry(amounts)
  {
    TotalSplits(amounts);
  }

  lemma {:induction false} ResiduesBound(amounts: seq<real>)
    ensures -(|amounts| as real) / 2.0 <= SumOfResidues(amounts) <= |amounts| as real / 2.0
    ensures amounts != [] ==> SumOfResidues(amounts) < |amounts| as real / 2.0
  {
    if amounts != [] {
      ResiduesBound(amounts[1..]);
    }
  }

  /** A side of n lines drifts from its rounded sum by at most n/2 cents; one line never drifts. */
  lemma CarryBound(amounts: seq<real>)
    ensures -|amounts| <= 2 * Carry(amounts) <= |amounts|
    ensures |amounts| == 1 ==> Carry(amounts) == 0
  {
    ResiduesBound(amounts);
    if |amounts| == 1 {
      assert amounts[1..] == [];
      assert SumOfResidues(amounts) == Residue(amounts[0]);
    }
  }

  lemma {:induction false} WholeCentsCarryNothing(amounts: seq<real>)
    requires forall i | 0 <= i < |amounts| :: WholeCents(amounts[i])
    ensures SumOfResidues(amounts) == 0.0 && Carry(amounts) == 0
  {
    if amounts != [] {
      WholeCentsCarryNothing(amounts[1..]);
      assert WholeCents(amounts[0]);
      RoundWhole(amounts[0] * 100.0, (amounts[0] * 100.0).Floor);
      assert Residue(amounts[0]) == 0.0;
    }
    RoundWhole(SumOfResidues(amounts), 0);
  }
}

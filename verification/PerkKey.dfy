/** The perk combination key: selections packed 14 bits apart (`ParticipantPerkIdsParser.parse`). */
module PerkKey {

  const PERK_BIT_WIDTH: nat := 14
  const BASE: nat := 16384

  /** `x << k`. */
  function ShiftLeft(x: nat, k: nat): nat {
    if k == 0 then x else 2 * ShiftLeft(x, k - 1)
  }

  /** `sum(perk << (width * idx))` over the selections, whose indices start at `idx`. */
  function ShiftedSum(perks: seq<nat>, idx: nat): nat {
    if perks == [] then 0
    else ShiftLeft(perks[0], PERK_BIT_WIDTH * idx) + ShiftedSum(perks[1..], idx + 1)
  }

  /** The key of a participant's primary and secondary selections. */
  function ComboKey(primary: seq<nat>, sub: seq<nat>): nat {
    ShiftedSum(primary + sub, 0)
  }

  ghost predicate Fits(perks: seq<nat>) {
    forall i | 0 <= i < |perks| :: perks[i] < BASE
  }

  /** The first `n` base-16384 digits of a key. */
  function Decode(key: nat, n: nat): seq<nat> {
    if n == 0 then [] else [key % BASE] + Decode(key / BASE, n - 1)
  }

  function Power(n: nat): nat {
    if n == 0 then 1 else BASE * Power(n - 1)
  }

  lemma {:induction false} ShiftAdd(x: nat, j: nat, k: nat)
    ensures ShiftLeft(x, j + k) == ShiftLeft(ShiftLeft(x, j), k)
  {
    if k > 0 {
      ShiftAdd(x, j, k - 1);
    }
  }

  lemma ShiftTwice(x: nat, k: nat)
    ensures ShiftLeft(x, k + 2) == 4 * ShiftLeft(x, k)
  {
    assert ShiftLeft(x, k + 1) == 2 * ShiftLeft(x, k);
  }

  lemma ShiftByWidth(x: nat)
    ensures ShiftLeft(x, PERK_BIT_WIDTH) == BASE * x
  {
    ShiftTwice(x, 0);
    ShiftTwice(x, 2);
    ShiftTwice(x, 4);
    ShiftTwice(x, 6);
    ShiftTwice(x, 8);
    ShiftTwice(x, 10);
    ShiftTwice(x, 12);
  }

  /** Starting one index later multiplies the sum by the base. */
  lemma {:induction false} SumShifted(perks: seq<nat>, idx: nat)
    ensures ShiftedSum(perks, idx + 1) == BASE * ShiftedSum(perks, idx)
  {
    if perks != [] {
      SumShifted(perks[1..], idx + 1);
      ShiftAdd(perks[0], PERK_BIT_WIDTH * idx, PERK_BIT_WIDTH);
      ShiftByWidth(ShiftLeft(perks[0], PERK_BIT_WIDTH * idx));
    }
  }

  lemma SumUnfold(perks: seq<nat>)
    requires perks != []
    ensures ShiftedSum(perks, 0) == perks[0] + BASE * ShiftedSum(perks[1..], 0)
  {
    SumShifted(perks[1..], 0);
  }

  lemma FirstDigit(digit: nat, rest: nat)
    requires digit < BASE
    ensures (digit + BASE * rest) % BASE == digit && (digit + BASE * rest) / BASE == rest
  {
  }

  /** With every selection below 2^14 the key decodes back to the selections. */
  lemma {:induction false} DecodeKey(perks: seq<nat>)
    requires Fits(perks)
    ensures Decode(ShiftedSum(perks, 0), |perks|) == perks
  {
    if perks != [] {
      SumUnfold(perks);
      FirstDigit(perks[0], ShiftedSum(perks[1..], 0));
      DecodeKey(perks[1..]);
    }
  }

  lemma {:induction false} DigitsFit(key: nat, n: nat)
    ensures |Decode(key, n)| == n && Fits(Decode(key, n))
  {
    if n > 0 {
      DigitsFit(key / BASE, n - 1);
    }
  }

  /** Exactly when a key decodes back to its selections: when each of them is below 2^14. */
  lemma DecodesExactly(perks: seq<nat>)
    ensures Decode(ShiftedSum(perks, 0), |perks|) == perks <==> Fits(perks)
  {
    DigitsFit(ShiftedSum(perks, 0), |perks|);
    if Fits(perks) {
      DecodeKey(perks);
    }
  }

  /** Every number below 16384^n is the key of exactly its digits. */
  lemma {:induction false} EncodeDigits(key: nat, n: nat)
    requires key < Power(n)
    ensures |Decode(key, n)| == n && Fits(Decode(key, n)) && ShiftedSum(Decode(key, n), 0) == key
  {
    if n > 0 {
      EncodeDigits(key / BASE, n - 1);
      assert Decode(key, n)[1..] == Decode(key / BASE, n - 1);
      SumUnfold(Decode(key, n));
    }
  }

  /** Selections that do not fit share their key with others, as long as the key has no more digits than they. */
  lemma UnfitCollides(perks: seq<nat>)
    requires !Fits(perks) && ShiftedSum(perks, 0) < Power(|perks|)
    ensures
      var other := Decode(ShiftedSum(perks, 0), |perks|);
      |other| == |perks| && other != perks && ShiftedSum(other, 0) == ShiftedSum(perks, 0)
  {
    EncodeDigits(ShiftedSum(perks, 0), |perks|);
    DecodesExactly(perks);
  }

  lemma {:induction false} KeyBound(perks: seq<nat>)
    requires Fits(perks)
    ensures ShiftedSum(perks, 0) < Power(|perks|)
  {
    if perks != [] {
      SumUnfold(perks);
      KeyBound(perks[1..]);
    }
  }

  /** Keys of equally long selections are equal only for equal selections. */
  lemma KeyInjective(primary: seq<nat>, sub: seq<nat>, primary': seq<nat>, sub': seq<nat>)
    requires Fits(primary + sub) && Fits(primary' + sub')
    requires |primary| == |primary'| && |sub| == |sub'|
    requires ComboKey(primary, sub) == ComboKey(primary', sub')
    ensures primary == primary' && sub == sub'
  {
    var a, b := primary + sub, primary' + sub';
    DecodeKey(a);
    DecodeKey(b);
    assert primary == a[..|primary|] && primary' == b[..|primary|];
    assert sub == a[|primary|..] && sub' == b[|primary|..];
  }

  /** Selections that only fit their own UInt16 columns carry into the next digit, but not far. */
  lemma {:induction false} WideKeyBound(perks: seq<nat>)
    requires forall i | 0 <= i < |perks| :: perks[i] < 0x1_0000
    ensures ShiftedSum(perks, 0) + 5 <= 5 * Power(|perks|)
  {
    if perks != [] {
      SumUnfold(perks);
      WideKeyBound(perks[1..]);
    }
  }

  /** Six selections that fit their UInt16 columns fit the UInt128 column of the key, decodable or not. */
  lemma SixFitUInt128(perks: seq<nat>)
    requires |perks| == 6 && forall i | 0 <= i < |perks| :: perks[i] < 0x1_0000
    ensures ShiftedSum(perks, 0) < 0x1_0000_0000_0000_0000_0000_0000_0000_0000
  {
    WideKeyBound(perks);
    assert Power(3) == 4398046511104;
    assert Power(6) == BASE * BASE * BASE * Power(3);
  }

  /** The key of a participant decodes to the primary selections followed by the secondary ones. */
  lemma ComboDecodes(primary: seq<nat>, sub: seq<nat>)
    ensures Decode(ComboKey(primary, sub), |primary + sub|) == primary + sub <==> Fits(primary) && Fits(sub)
  {
    DecodesExactly(primary + sub);
    FitsBoth(primary, sub);
  }

  lemma FitsBoth(a: seq<nat>, b: seq<nat>)
    ensures Fits(a + b) <==> Fits(a) && Fits(b)
  {
    var all := a + b;
    if Fits(all) {
      assert forall i | 0 <= i < |a| :: a[i] == all[i];
      assert forall i | 0 <= i < |b| :: b[i] == all[|a| + i];
    }
  }

  /** The first primary selection takes the lowest 14 bits. */
  lemma ComboExample(a: nat, b: nat, c: nat)
    ensures ComboKey([a, b], [c]) == a + 16384 * b + 268435456 * c
  {
    assert [a, b] + [c] == [a, b, c];
    SumUnfold([a, b, c]);
    SumUnfold([b, c]);
    SumUnfold([c]);
  }

  /** Without the hypotheses keys collide: a selection of 2^14, or a trailing selection of 0. */
  lemma KeysCollide()
    ensures ShiftedSum([BASE, 0], 0) == ShiftedSum([0, 1], 0)
    ensures ShiftedSum([1], 0) == ShiftedSum([1, 0], 0)
  {
    SumUnfold([BASE, 0]);
    SumUnfold([0, 1]);
    SumUnfold([1, 0]);
    SumUnfold([1]);
    SumUnfold([0]);
  }
}

/** Fixed-width integers as bytes, in both byte orders, with two's complement for signed values. */
module Bytes {
  type byte = x: int | 0 <= x < 256

  /** The number of values of w bytes. */
  function Pow256(w: nat): (r: nat)
    ensures r > 0
  {
    if w == 0 then 1 else 256 * Pow256(w - 1)
  }

  function FromLe(bs: seq<byte>): nat {
    if bs == [] then 0 else bs[0] + 256 * FromLe(bs[1..])
  }

  function ToLe(n: nat, w: nat): (r: seq<byte>)
    ensures |r| == w
  {
    if w == 0 then [] else [n % 256] + ToLe(n / 256, w - 1)
  }

  function FromBe(bs: seq<byte>): nat {
    if bs == [] then 0 else 256 * FromBe(bs[..|bs| - 1]) + bs[|bs| - 1]
  }

  function ToBe(n: nat, w: nat): (r: seq<byte>)
    ensures |r| == w
  {
    if w == 0 then [] else ToBe(n / 256, w - 1) + [n % 256]
  }

  lemma {:induction false} LeRoundTrip(n: nat, w: nat)
    requires n < Pow256(w)
    ensures FromLe(ToLe(n, w)) == n
  {
    if w > 0 {
      LeRoundTrip(n / 256, w - 1);
      assert ToLe(n, w)[1..] == ToLe(n / 256, w - 1);
    }
  }

  lemma {:induction false} LeIsOnto(bs: seq<byte>)
    ensures FromLe(bs) < Pow256(|bs|)
    ensures ToLe(FromLe(bs), |bs|) == bs
  {
    if bs != [] {
      LeIsOnto(bs[1..]);
      assert bs == [bs[0]] + bs[1..];
    }
  }

  lemma {:induction false} BeRoundTrip(n: nat, w: nat)
    requires n < Pow256(w)
    ensures FromBe(ToBe(n, w)) == n
  {
    if w > 0 {
      BeRoundTrip(n / 256, w - 1);
      assert ToBe(n, w)[..w - 1] == ToBe(n / 256, w - 1);
    }
  }

  lemma {:induction false} BeIsOnto(bs: seq<byte>)
    ensures FromBe(bs) < Pow256(|bs|)
    ensures ToBe(FromBe(bs), |bs|) == bs
  {
    if bs != [] {
      var init := bs[..|bs| - 1];
      BeIsOnto(init);
      assert bs == init + [bs[|bs| - 1]];
    }
  }

  /** The signed value of the bit pattern u of w bytes. */
  function Signed(u: nat, w: nat): int {
    if 2 * u < Pow256(w) then u else u - Pow256(w)
  }

  predicate FitsSigned(n: int, w: nat) {
    0 <= 2 * n + Pow256(w) && 2 * n < Pow256(w)
  }

  predicate FitsUnsigned(n: int, w: nat) {
    0 <= n < Pow256(w)
  }

  /** The bit pattern of n in w bytes. */
  function Pattern(n: int, w: nat): nat
    requires 0 <= n + Pow256(w)
  {
    if n < 0 then n + Pow256(w) else n
  }

  lemma {:induction false} PatternOfSigned(u: nat, w: nat)
    requires u < Pow256(w)
    ensures FitsSigned(Signed(u, w), w) && Pattern(Signed(u, w), w) == u
  {
  }
}

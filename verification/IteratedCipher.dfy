/**
 The shape of the block cipher of FIPS 197, apart from what its steps compute: round keys are
 added between rounds, every round but the last also mixes, and the inverse cipher runs the
 inverse steps with the round keys in the opposite order.
 */
module IteratedCipher {

  // The steps of a round: `confuse` is SubBytes then ShiftRows, `mix` is MixColumns.
  datatype Steps<!S(!new)> = Steps(add: (S, S) -> S, confuse: S -> S, unconfuse: S -> S, mix: S -> S, unmix: S -> S)
  {
    ghost predicate Invertible() {
      && (forall s, k :: add(add(s, k), k) == s)
      && (forall s :: unconfuse(confuse(s)) == s)
      && (forall s :: confuse(unconfuse(s)) == s)
      && (forall s :: unmix(mix(s)) == s)
      && (forall s :: mix(unmix(s)) == s)
    }

    // The state after the first round key and `n` full rounds.
    function Forward(s: S, keys: seq<S>, n: nat): S
      requires n < |keys|
    {
      if n == 0 then add(s, keys[0]) else add(mix(confuse(Forward(s, keys, n - 1))), keys[n])
    }

    // The cipher of section 5.1: full rounds, then one that does not mix.
    function Encrypt(s: S, keys: seq<S>): S
      requires |keys| >= 2
    {
      add(confuse(Forward(s, keys, |keys| - 2)), keys[|keys| - 1])
    }

    // The state of the inverse cipher once it has used the round keys from the last down to `n`.
    function Backward(s: S, keys: seq<S>, n: nat): S
      requires n < |keys|
      decreases |keys| - n
    {
      if n == |keys| - 1 then add(s, keys[n]) else unmix(add(unconfuse(Backward(s, keys, n + 1)), keys[n]))
    }

    // The inverse cipher of section 5.3.
    function Decrypt(s: S, keys: seq<S>): S
      requires |keys| >= 2
    {
      add(unconfuse(Backward(s, keys, 1)), keys[0])
    }

    // Going down, the inverse cipher meets the states of the cipher in reverse order.
    lemma {:induction false} BackwardRetracesForward(s: S, keys: seq<S>, n: nat)
      requires Invertible() && 1 <= n < |keys|
      ensures Backward(Encrypt(s, keys), keys, n) == confuse(Forward(s, keys, n - 1))
      decreases |keys| - n
    {
      if n < |keys| - 1 {
        BackwardRetracesForward(s, keys, n + 1);
      }
    }

    // Going up, the cipher meets the states of the inverse cipher in reverse order.
    lemma {:induction false} ForwardRetracesBackward(s: S, keys: seq<S>, n: nat)
      requires Invertible() && n < |keys| - 1
      ensures Forward(Decrypt(s, keys), keys, n) == unconfuse(Backward(s, keys, n + 1))
    {
      if n > 0 {
        ForwardRetracesBackward(s, keys, n - 1);
      }
    }

    // Cipher and inverse cipher undo each other, whatever the round keys are.
    lemma RoundTrip(s: S, keys: seq<S>)
      requires Invertible() && |keys| >= 2
      ensures Decrypt(Encrypt(s, keys), keys) == s
      ensures Encrypt(Decrypt(s, keys), keys) == s
    {
      BackwardRetracesForward(s, keys, 1);
      ForwardRetracesBackward(s, keys, |keys| - 2);
    }

    // A round key is used up to the round it belongs to, not before.
    lemma {:induction false} SameForward(s: S, keys: seq<S>, keys': seq<S>, n: nat)
      requires n < |keys| == |keys'|
      requires forall i | 0 <= i <= n :: keys[i] == keys'[i]
      ensures Forward(s, keys, n) == Forward(s, keys', n)
    {
      if n > 0 {
        SameForward(s, keys, keys', n - 1);
      }
    }

    // If adding keys is injective, then the last round key can be told from the ciphertext.
    lemma LastKeyMatters(s: S, keys: seq<S>, keys': seq<S>)
      requires |keys| == |keys'| >= 2
      requires forall n | 0 <= n < |keys| - 1 :: keys[n] == keys'[n]
      requires forall t, k, k' | add(t, k) == add(t, k') :: k == k'
      requires Encrypt(s, keys) == Encrypt(s, keys')
      ensures keys[|keys| - 1] == keys'[|keys| - 1]
    {
      SameForward(s, keys, keys', |keys| - 2);
    }
  }
}

/** How much ether a whole chain issues: uncle rules and rewards together. */
module Issuance {
  import opened Wrappers
  import H = Headers
  import U = Uncles
  import opened WorldState
  import opened StateProcessor

  /** The rewarded part of a block, as the processor sees it. */
  function Heads(us: seq<H.Header>): seq<Uncle> {
    seq(|us|, i requires 0 <= i < |us| => Uncle(us[i].number, us[i].coinbase))
  }

  /** Each uncle of an accepted block earns between two and seven eighths of the
      block reward, and the division is exact. */
  lemma UncleRewardExact(uncle: nat, number: nat)
    requires number - 6 <= uncle <= number - 1
    ensures 8 * UncleReward(uncle, number) == (uncle + 8 - number) * BLOCK_REWARD
    ensures 2 * BLOCK_REWARD <= 8 * UncleReward(uncle, number) <= 7 * BLOCK_REWARD
  {
  }

  predicate Aged(number: nat, uncles: seq<Uncle>) {
    forall i :: 0 <= i < |uncles| ==> number - 6 <= uncles[i].number <= number - 1
  }

  /** Per uncle the block issues at least 9/32 and at most 29/32 more. */
  lemma {:induction false} MintedBounds(number: nat, uncles: seq<Uncle>)
    requires Aged(number, uncles)
    ensures (32 + 9 * |uncles|) * BLOCK_REWARD <= 32 * Minted(number, uncles) <= (32 + 29 * |uncles|) * BLOCK_REWARD
  {
    if uncles != [] {
      MintedBounds(number, uncles[..|uncles| - 1]);
      UncleRewardExact(uncles[|uncles| - 1].number, number);
    }
  }

  /** A chain of blocks with the states between them: block i takes state i to
      state i + 1, and rewards the uncles that were verified. */
  ghost predicate Applied(c: seq<U.Block>, blocks: seq<Block>, states: seq<State>) {
    && |blocks| == |states| == |c|
    && forall i :: 1 <= i < |c| ==> AppliedAt(c[i], blocks[i], states[i - 1], states[i])
  }

  ghost predicate AppliedAt(b: U.Block, block: Block, before: State, after: State) {
    && block.number == b.header.number && block.uncles == Heads(b.uncles)
    && Process(before, block).error.None? && Process(before, block).state == after
  }

  lemma BlockIssues(c: seq<U.Block>, stores: seq<U.Store>, pow: H.Header -> bool, now: seq<nat>,
                    blocks: seq<Block>, states: seq<State>, i: nat)
    requires U.Accepted(c, stores, pow, now) && U.Hashed(c) && Applied(c, blocks, states) && 1 <= i < |c|
    ensures Aged(blocks[i].number, blocks[i].uncles) && |blocks[i].uncles| <= 2
    ensures Supply(states[i]) == Supply(states[i - 1]) + Minted(blocks[i].number, blocks[i].uncles)
    ensures Sound(states[i - 1], states[i])
  {
    assert AppliedAt(c[i], blocks[i], states[i - 1], states[i]);
    forall a | 0 <= a < |c[i].uncles|
      ensures c[i].header.number - 6 <= c[i].uncles[a].number <= c[i].header.number - 1
    {
      U.UncleAge(c, stores, pow, now, i, a);
    }
    BlockConserves(states[i - 1], blocks[i]);
    if NonNegative(states[i - 1].accounts) {
      BlockNonNegative(states[i - 1], blocks[i]);
    }
  }

  /** After n blocks the ether issued lies between n and 45/16 n block rewards. */
  lemma {:induction false} ChainIssues(c: seq<U.Block>, stores: seq<U.Store>, pow: H.Header -> bool, now: seq<nat>,
                                       blocks: seq<Block>, states: seq<State>, n: nat)
    requires U.Accepted(c, stores, pow, now) && U.Hashed(c) && Applied(c, blocks, states) && n < |c|
    ensures 16 * n * BLOCK_REWARD <= 16 * (Supply(states[n]) - Supply(states[0])) <= 45 * n * BLOCK_REWARD
  {
    if n > 0 {
      ChainIssues(c, stores, pow, now, blocks, states, n - 1);
      BlockIssues(c, stores, pow, now, blocks, states, n);
      MintedBounds(blocks[n].number, blocks[n].uncles);
    }
  }

  lemma {:induction false} ChainSound(c: seq<U.Block>, stores: seq<U.Store>, pow: H.Header -> bool, now: seq<nat>,
                                      blocks: seq<Block>, states: seq<State>, n: nat)
    requires U.Accepted(c, stores, pow, now) && U.Hashed(c) && Applied(c, blocks, states) && n < |c|
    ensures Sound(states[0], states[n])
  {
    if n > 0 {
      ChainSound(c, stores, pow, now, blocks, states, n - 1);
      BlockIssues(c, stores, pow, now, blocks, states, n);
    }
  }

  /** From balances that are not negative, the sum of all balances never grows by
      more than 45/16 of the reward per block, and no balance is ever negative. */
  lemma ChainTotal(c: seq<U.Block>, stores: seq<U.Store>, pow: H.Header -> bool, now: seq<nat>,
                   blocks: seq<Block>, states: seq<State>, n: nat)
    requires U.Accepted(c, stores, pow, now) && U.Hashed(c) && Applied(c, blocks, states) && n < |c|
    requires NonNegative(states[0].accounts)
    ensures NonNegative(states[n].accounts)
    ensures 16 * (Total(states[n].accounts) - Total(states[0].accounts)) <= 45 * n * BLOCK_REWARD
  {
    ChainSound(c, stores, pow, now, blocks, states, n);
    ChainIssues(c, stores, pow, now, blocks, states, n);
  }
}

/** The refresh loop of src/worker/rate_refresh.py. */
module RateRefresh {
  import opened Common
  import opened TokenBuckets

  /** What a read of the limits gives: rate and burst, or an error. */
  type Limits = Option<(real, int)>

  function Configs(polls: seq<Limits>): seq<Op> {
    if polls == [] then []
    else
      var before, last := Configs(polls[..|polls| - 1]), polls[|polls| - 1];
      if last.None? then before else before + [Config(last.value.0, last.value.1)]
  }

  /** What the last successful read gave. */
  function LastRead(polls: seq<Limits>): Limits {
    if polls == [] then None
    else if polls[|polls| - 1].Some? then polls[|polls| - 1] else LastRead(polls[..|polls| - 1])
  }

  /** `level` cut down to every burst that was read. */
  function Cut(level: real, polls: seq<Limits>): real {
    if polls == [] then level
    else
      var before, last := Cut(level, polls[..|polls| - 1]), polls[|polls| - 1];
      if last.Some? && last.value.1 as real < before then last.value.1 as real else before
  }

  /** Read `n` gave a burst of `level`. */
  predicate Gave(polls: seq<Limits>, n: nat, level: real) {
    n < |polls| && polls[n].Some? && polls[n].value.1 as real == level
  }

  /** That is the least of them all. */
  lemma {:induction false} CutIsLeast(level: real, polls: seq<Limits>)
    ensures Cut(level, polls) <= level
    ensures forall n: nat, burst :: Gave(polls, n, burst) ==> Cut(level, polls) <= burst
    ensures Cut(level, polls) == level || exists n: nat :: Gave(polls, n, Cut(level, polls))
  {
    if polls == [] {
    } else {
      var init, last := polls[..|polls| - 1], polls[|polls| - 1];
      CutIsLeast(level, init);
      forall n: nat, burst | Gave(polls, n, burst) ensures Cut(level, polls) <= burst {
        assert n < |init| ==> Gave(init, n, burst);
      }
      if last.Some? && Cut(level, polls) == last.value.1 as real {
        assert Gave(polls, |init|, Cut(level, polls));
      } else if Cut(level, init) != level {
        var n: nat :| Gave(init, n, Cut(level, init));
        assert Gave(polls, n, Cut(level, polls));
      }
    }
  }

  /** The limits are those of the last successful read, and the level is cut. */
  predicate Refreshed(before: Bucket, polls: seq<Limits>, after: Bucket) {
    && after.rate == (if LastRead(polls).Some? then LastRead(polls).value.0 else before.rate)
    && after.capacity == (if LastRead(polls).Some? then LastRead(polls).value.1 else before.capacity)
    && after.tokens == Cut(before.tokens, polls) && after.last == before.last
  }

  /** Every successful read reconfigures the bucket, and a failed one leaves it alone. */
  method RefreshRates(bucket: TokenBucket, polls: seq<Limits>)
    modifies bucket
    ensures bucket.Value() == Outcome(old(bucket.Value()), Configs(polls))
    ensures Refreshed(old(bucket.Value()), polls, bucket.Value())
  {
    for n := 0 to |polls|
      invariant bucket.Value() == Outcome(old(bucket.Value()), Configs(polls[..n]))
      invariant Refreshed(old(bucket.Value()), polls[..n], bucket.Value())
    {
      assert polls[..n + 1][..n] == polls[..n];
      if polls[n].Some? {
        OutcomeSnoc(old(bucket.Value()), Configs(polls[..n]), Config(polls[n].value.0, polls[n].value.1));
        bucket.UpdateConfig(polls[n].value.0, polls[n].value.1);
      }
    }
    assert polls[..|polls|] == polls;
  }
}

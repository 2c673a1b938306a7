/** Token amounts and the leaf bucket of the rate limiter. */
module Rates {

  /** An amount of octets, or `rate::unlimited` as a value of its own. */
  datatype Rate = Finite(n: nat) | Unlimited {

    predicate Below(other: Rate) {
      match (this, other)
      case (Finite(a), Finite(b)) => a < b
      case (Finite(_), Unlimited) => true
      case (Unlimited, _) => false
    }

    function Min(other: Rate): Rate {
      if other.Below(this) then other else this
    }

    function Or(default: nat): nat {
      if Finite? then n else default
    }
  }

  function MinNat(a: nat, b: nat): nat {
    if b < a then b else a
  }

  /** The amount handed out in one tick is a fifth of the limit. */
  const FREQUENCY: nat := 5

  /** A bucket stops doubling its size at this multiplier. */
  const MAX_MULTIPLIER: nat := 1024 * 1024

  /**
   * What every `add_tokens` call in a tree is handed: tokens are finite exactly
   * when the limit is, and never above it.
   */
  predicate Paired(tokens: Rate, limit: Rate) {
    && (tokens.Finite? <==> limit.Finite?)
    && (tokens.Finite? ==> tokens.n <= limit.n)
  }

  /** One direction of a leaf bucket. */
  datatype Bucket = Bucket(available: Rate, multiplier: nat, size: Rate, waiting: bool, unsaturated: bool) {

    /** A bucket with a finite balance has a finite size that covers it. */
    predicate Ok() {
      && multiplier >= 1
      && (available.Finite? ==> size.Finite? && available.n <= size.n)
    }
  }

  const FreshBucket := Bucket(Unlimited, 1, Unlimited, false, false)

  /** Puts tokens into a bucket with finite balance, doubling its size once if it is unsaturated and too small. */
  function Fill(b: Bucket, tokens: nat): (r: (Bucket, nat))
    requires b.Ok() && b.available.Finite?
    ensures r.0.Ok() && r.0.available.Finite?
    ensures r.0.available.n + r.1 == b.available.n + tokens
    ensures r.1 <= tokens
    ensures !b.unsaturated ==> !r.0.unsaturated
    ensures r.1 > 0 ==> !r.0.unsaturated && r.0.available == r.0.size
  {
    var capacity := b.size.n - b.available.n;
    var grown :=
      if capacity < tokens && b.unsaturated then
        if b.multiplier < MAX_MULTIPLIER
        then b.(unsaturated := false, size := Finite(2 * b.size.n), multiplier := 2 * b.multiplier)
        else b.(unsaturated := false)
      else b;
    var added := MinNat(tokens, grown.size.n - b.available.n);
    (grown.(available := Finite(b.available.n + added)), tokens - added)
  }

  /** A bucket that wants more grows exactly if it is too small for what it is given, twice at a time, and then wants no more. */
  lemma FillGrows(b: Bucket, tokens: nat)
    requires b.Ok() && b.available.Finite?
    ensures var r := Fill(b, tokens).0;
            var short := b.unsaturated && b.available.n + tokens > b.size.n;
            && (r.unsaturated <==> b.unsaturated && !short)
            && r.size.n == (if short && b.multiplier < MAX_MULTIPLIER then 2 else 1) * b.size.n
            && r.multiplier == (if short && b.multiplier < MAX_MULTIPLIER then 2 else 1) * b.multiplier
            && (r.available == r.size || r.available.n == b.available.n + tokens)
  {
  }

  lemma ScaledAtLeast(a: nat, k: nat)
    requires k >= 1
    ensures a <= a * k
  {
  }

  /** `bucket::add_tokens`; the second part of the result is the overflow. */
  function BucketAdd(b: Bucket, tokens: Rate, limit: Rate, burst: nat): (r: (Bucket, nat))
    requires b.Ok() && Paired(tokens, limit) && burst >= 1
    ensures r.0.Ok()
    ensures r.0.available.Finite? <==> limit.Finite?
    ensures limit.Finite? ==> r.1 <= tokens.n
    ensures limit.Unlimited? ==> r.1 == 0
    ensures r.1 > 0 ==> r.0.available == r.0.size
  {
    if limit.Unlimited? then
      (b.(size := Unlimited, available := Unlimited), 0)
    else
      var size := limit.n * b.multiplier * burst;
      assert limit.n <= size by {
        ScaledAtLeast(limit.n, b.multiplier);
        ScaledAtLeast(limit.n * b.multiplier, burst);
      }
      var sized := b.(size := Finite(size));
      if b.available.Unlimited? then
        (sized.(available := tokens), 0)
      else if size < b.available.n then
        (sized.(available := Finite(size)), tokens.n)
      else
        Fill(sized, tokens.n)
  }

  /** `bucket::distribute_overflow`. */
  function BucketDistribute(b: Bucket, tokens: nat): (r: (Bucket, nat))
    requires b.Ok()
    ensures r.0.Ok()
    ensures r.0.available.Finite? <==> b.available.Finite?
    ensures r.1 <= tokens
    ensures b.available.Finite? ==> r.0.available.n + r.1 == b.available.n + tokens
    ensures r.1 > 0 ==> !r.0.unsaturated && r.0.available == r.0.size
    ensures !b.unsaturated ==> !r.0.unsaturated
  {
    if b.available.Unlimited? then (b, 0) else Fill(b, tokens)
  }

  /**
   * `bucket::update_stats`. A bucket that is over half full shrinks, until it is
   * back at its first size; any other wants more exactly if a consumer waits.
   */
  function BucketStats(b: Bucket): (r: Bucket)
    requires b.Ok()
    ensures r.Ok() && r.available == b.available && r.size == b.size && r.waiting == b.waiting
    ensures r.multiplier < b.multiplier <==> b.multiplier > 1 && (b.size.Finite? ==> b.available.Unlimited? || b.available.n > b.size.n / 2)
    ensures b.size.Unlimited? ==> r.multiplier == 1
    ensures b.size.Finite? && r.multiplier < b.multiplier ==> r.multiplier == b.multiplier / 2 && r.unsaturated == b.unsaturated
    ensures r.multiplier >= b.multiplier && b.size.Finite? ==> r.multiplier == b.multiplier && r.unsaturated == b.waiting
  {
    if b.size.Unlimited? then
      b.(multiplier := 1)
    else if Finite(b.size.n / 2).Below(b.available) && b.multiplier > 1 then
      b.(multiplier := b.multiplier / 2)
    else
      b.(unsaturated := b.waiting)
  }
}

/** How `kafkaShareConsumerLimits` in `pkg/infra/kafka.go` splits the concurrency of a share subscription. */
module KafkaShare {
  const DefaultShareConsumers := 4

  ghost function Sum(s: seq<nat>): nat { if s == [] then 0 else Sum(s[..|s| - 1]) + s[|s| - 1] }

  function Min(a: nat, b: nat): nat { if a <= b then a else b }

  function Max(a: nat, b: nat): nat { if a >= b then a else b }

  function CeilDiv(a: nat, b: nat): nat
    requires b > 0
  {
    (a + b - 1) / b
  }

  lemma SumOne(s: seq<nat>, x: nat)
    ensures Sum(s + [x]) == Sum(s) + x
  {
    assert (s + [x])[..|s|] == s;
  }

  lemma {:induction false} Multiples(n: nat, x: nat, y: nat)
    ensures x <= y ==> n * x <= n * y
    decreases y - x
  {
    if x < y {
      Multiples(n, x, y - 1);
      assert n * y == n * (y - 1) + n;
    }
  }

  lemma CeilCovers(a: nat, b: nat)
    requires b > 0
    ensures a <= b * CeilDiv(a, b) < a + b
  {
    var q := (a + b - 1) / b;
    assert a + b - 1 == b * q + (a + b - 1) % b;
  }

  /** Enough consumers for the batch size, and no more than the concurrency. */
  lemma CountFits(concurrency: nat, batchSize: nat, count: nat, asked: nat)
    requires concurrency >= 1 && batchSize >= 1 && 1 <= asked <= concurrency
    requires count == Max(asked, CeilDiv(concurrency, batchSize))
    ensures 1 <= count <= concurrency && concurrency <= batchSize * count
  {
    var needed := CeilDiv(concurrency, batchSize);
    CeilCovers(concurrency, batchSize);
    Multiples(batchSize, needed, count);
    Multiples(batchSize, concurrency + 1, needed);
    assert batchSize * (concurrency + 1) == batchSize * concurrency + batchSize;
    Multiples(concurrency, 1, batchSize);
  }

  /** The quotient, one more where a remainder is left, stays within the batch size. */
  lemma ShareFits(concurrency: nat, batchSize: nat, count: nat)
    requires 1 <= count <= concurrency <= batchSize * count
    ensures var q, r := concurrency / count, concurrency % count;
            concurrency == q * count + r && 1 <= q && (if r > 0 then q + 1 else q) <= batchSize
  {
    var q, r := concurrency / count, concurrency % count;
    assert concurrency == count * q + r;
    Multiples(count, batchSize + 1, q);
    assert count * (batchSize + 1) == count * batchSize + count;
  }

  /** The limits add up to the concurrency, each lies between 1 and the batch size, and no two differ by
      more than one; with no explicit count there are at most four unless the batch size needs more. */
  method ShareConsumerLimits(concurrency: nat, batchSize: nat, shareConsumers: nat) returns (limits: seq<nat>)
    requires concurrency >= 1 && batchSize >= 1 && shareConsumers <= concurrency
    ensures Sum(limits) == concurrency
    ensures forall i :: 0 <= i < |limits| ==> 1 <= limits[i] <= batchSize
    ensures forall i, j :: 0 <= i < |limits| && 0 <= j < |limits| ==> limits[i] <= limits[j] + 1
    ensures |limits| == Max(if shareConsumers == 0 then Min(concurrency, DefaultShareConsumers) else shareConsumers,
                            CeilDiv(concurrency, batchSize))
  {
    var count := shareConsumers;
    if count == 0 { count := Min(concurrency, DefaultShareConsumers); }
    ghost var asked := count;
    count := Max(count, (concurrency + batchSize - 1) / batchSize);
    CountFits(concurrency, batchSize, count, asked);
    ShareFits(concurrency, batchSize, count);
    var q, r := concurrency / count, concurrency % count;
    limits := [];
    for index := 0 to count
      invariant |limits| == index
      invariant forall i :: 0 <= i < index ==> limits[i] == if i < r then q + 1 else q
      invariant Sum(limits) == q * index + Min(index, r)
    {
      var limit := concurrency / count;
      if index < concurrency % count { limit := limit + 1; }
      SumOne(limits, limit);
      assert q * (index + 1) == q * index + q;
      limits := limits + [limit];
    }
  }
}

/**
 What the prices mean: what one token of each kind costs, and that the worst case is one.
 */
module PriceResults {
  import opened Ledger
  import opened Options
  import opened Products

  /** Both answers together. */
  function Together(c: Completion, d: Completion): Completion {
    Completion(c.model, c.inputTokens + d.inputTokens, c.outputTokens + d.outputTokens,
               c.cacheReadTokens + d.cacheReadTokens, c.cacheWriteTokens + d.cacheWriteTokens)
  }

  lemma ProductOfSum(a: nat, b: nat, price: real)
    ensures (a + b) as real * price == a as real * price + b as real * price
  {
  }

  /** Before rounding, tokens cost the same however they are divided over answers. */
  lemma CostsAdd(c: Completion, d: Completion, inp: real, out: real, cacheWrite: real)
    ensures CompletionUsd(Together(c, d), inp, out, cacheWrite)
         == CompletionUsd(c, inp, out, cacheWrite) + CompletionUsd(d, inp, out, cacheWrite)
  {
    ProductOfSum(c.inputTokens, d.inputTokens, inp);
    ProductOfSum(c.outputTokens, d.outputTokens, out);
    ProductOfSum(c.cacheWriteTokens, d.cacheWriteTokens, inp);
    ProductOfSum(c.cacheReadTokens, d.cacheReadTokens, inp);
    Distribute(c.cacheWriteTokens as real * inp, d.cacheWriteTokens as real * inp, cacheWrite);
    Distribute(c.cacheReadTokens as real * inp, d.cacheReadTokens as real * inp, CACHE_READ);
  }

  /** A million tokens cost the listed price: the input price for input, that times the cache
      lifetime's factor for writing it to the cache, a tenth of it for reading it from there,
      and the output price for output. */
  lemma MillionTokensCost(p: Prices, model: string, other: string)
    requires model in p.table
    ensures Cost(p, Completion(other, 1_000_000, 0, 0, 0), model) == p.round(p.table[model].0)
    ensures Cost(p, Completion(other, 0, 1_000_000, 0, 0), model) == p.round(p.table[model].1)
    ensures Cost(p, Completion(other, 0, 0, 1_000_000, 0), model) == p.round(p.table[model].0 * 0.1)
    ensures Cost(p, Completion(other, 0, 0, 0, 1_000_000), model) == p.round(p.table[model].0 * p.cacheWrite)
  {
    CostOfOneKind(p, model, Completion(other, 1_000_000, 0, 0, 0), p.table[model].0);
    CostOfOneKind(p, model, Completion(other, 0, 1_000_000, 0, 0), p.table[model].1);
    CostOfOneKind(p, model, Completion(other, 0, 0, 1_000_000, 0), p.table[model].0 * 0.1);
    CostOfOneKind(p, model, Completion(other, 0, 0, 0, 1_000_000), p.table[model].0 * p.cacheWrite);
  }

  lemma CostOfOneKind(p: Prices, model: string, c: Completion, price: real)
    requires model in p.table && IsOfKind(c, p.table[model].0, p.table[model].1, p.cacheWrite, price)
    ensures Cost(p, c, model) == p.round(price)
  {
    OneKind(c, p.table[model].0, p.table[model].1, p.cacheWrite, price);
  }

  predicate IsOfKind(c: Completion, inp: real, out: real, cacheWrite: real, price: real) {
    || (c == Completion(c.model, 1_000_000, 0, 0, 0) && price == inp)
    || (c == Completion(c.model, 0, 1_000_000, 0, 0) && price == out)
    || (c == Completion(c.model, 0, 0, 1_000_000, 0) && price == inp * 0.1)
    || (c == Completion(c.model, 0, 0, 0, 1_000_000) && price == inp * cacheWrite)
  }

  /** A million tokens of one kind, at its price. */
  lemma OneKind(c: Completion, inp: real, out: real, cacheWrite: real, price: real)
    requires IsOfKind(c, inp, out, cacheWrite, price)
    ensures CompletionUsd(c, inp, out, cacheWrite) / 1_000_000.0 == price
  {
    Nothing(inp);
    Nothing(out);
    Nothing(cacheWrite);
    Regroup(inp, cacheWrite);
    Millions(price);
    assert CompletionUsd(c, inp, out, cacheWrite) == 1_000_000.0 * price;
  }

  lemma Nothing(x: real)
    ensures 0.0 * x == 0.0
  {
  }

  lemma Millions(x: real)
    ensures 1_000_000.0 * x / 1_000_000.0 == x
  {
  }

  lemma Regroup(x: real, y: real)
    ensures 1_000_000.0 * x * y == 1_000_000.0 * (x * y)
  {
  }

  /** The listed price of the model that was asked for decides, else that of the model that
      answered; without either the answer is free. */
  lemma WhosePrice(p: Prices, c: Completion, model: string, other: string)
    ensures model in p.table ==> Cost(p, c, model) == Cost(p, c.(model := other), model)
    ensures model !in p.table && c.model in p.table ==> Cost(p, c, model) == Cost(p, c, c.model)
    ensures model !in p.table && c.model !in p.table ==> Cost(p, c, model) == 0.0
  {
    if model in p.table {
      var (inp, out) := p.table[model];
      assert CompletionUsd(c, inp, out, p.cacheWrite) == CompletionUsd(c.(model := other), inp, out, p.cacheWrite);
    }
  }

  /** The worst case is no overestimate of its own terms: some answer within them costs exactly that. */
  lemma WorstCaseIsAttained(p: Prices, request: Request) returns (c: Completion)
    requires request.model in p.table
    ensures Metered(request, c) && Cost(p, c, request.model) == WorstCase(p, request).value
  {
    var tokens := EstimatedTokens(request);
    var (inp, out) := p.table[request.model];
    c := if p.cacheWrite < 1.0 then Completion(request.model, tokens, request.maxTokens, 0, 0)
         else Completion(request.model, 0, request.maxTokens, 0, tokens);
    Nothing(inp);
    Nothing(p.cacheWrite);
    assert CompletionUsd(c, inp, out, p.cacheWrite) == RequestUsd(tokens, request.maxTokens, inp, out, p.cacheWrite);
  }

  /** An unlisted model is refused before anything is sent. */
  lemma UnlistedHasNoWorstCase(p: Prices, request: Request)
    ensures WorstCase(p, request).Err? <==> request.model !in p.table
    ensures WorstCase(p, request).Err? ==> WorstCase(p, request).error == UnpricedModel(request.model)
  {
  }

  lemma {:induction false} CharsAdd(a: seq<string>, b: seq<string>)
    ensures Chars(a + b) == Chars(a) + Chars(b)
  {
    if a == [] {
      assert a + b == b;
    } else {
      assert (a + b)[1..] == a[1..] + b;
      CharsAdd(a[1..], b);
    }
  }

  /** The estimate covers a text if and only if it has at most 64 tokens more than a third of its characters. */
  lemma EstimateCovers(request: Request, tokens: nat, texts: seq<string>, text: string)
    requires request.system == texts + [text]
    ensures tokens <= EstimatedTokens(request)
       <==> 3 * (tokens as int - 64) <= |request.prompt| + Chars(texts) + |text|
  {
    CharsAdd(texts, [text]);
    assert Chars([text]) == |text| by { assert [text][1..] == []; }
  }
}

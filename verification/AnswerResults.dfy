/**
 What is kept of an answer is what the model said: verdict by verdict, suggestion by
 suggestion, and each reason for discarding one.
 */
module AnswerResults {
  import opened Adjudication
  import opened Options
  import opened Text

  /** A text, cut where it is too long. */
  predicate IsCut(cut: string, text: string, most: nat) {
    cut == if |text| <= most then text else text[..most]
  }

  lemma {:induction false} ResolvedAppend(rules: Rules, a: seq<Citation>, b: seq<Citation>)
    ensures Resolved(rules, a + b) == Resolved(rules, a) + Resolved(rules, b)
  {
    if b == [] {
      assert a + b == a;
    } else {
      ResolvedAppend(rules, a, b[..|b| - 1]);
      assert (a + b)[..|a + b| - 1] == a + b[..|b| - 1];
    }
  }

  /** Citations are checked one by one and kept in order. */
  lemma CitationsInOrder(rules: Rules, a: seq<Citation>, c: Citation, b: seq<Citation>)
    ensures Resolved(rules, a + [c] + b)
         == Resolved(rules, a) + (if rules.resolve(c).Some? then [rules.resolve(c).value] else []) + Resolved(rules, b)
  {
    ResolvedAppend(rules, a + [c], b);
    ResolvedAppend(rules, a, [c]);
    assert [c][..0] == [];
  }

  /** The item is the first about its observation, which was shown. */
  predicate FirstAbout(shown: set<string>, items: seq<Item>, i: nat) {
    && i < |items| && items[i].observation in shown
    && forall j :: 0 <= j < i ==> items[j].observation != items[i].observation
  }

  /** The item says something usable. */
  predicate Usable(item: Item) {
    && item.reasoning != ""
    && item.assessment in
         {"consistent_with_repo", "diverges_from_repo", "insufficient_evidence", "probe_false_positive"}
  }

  lemma {:induction false} AnsweredAre(rules: Rules, shown: set<string>, share: real, items: seq<Item>, id: string)
    ensures id in TakeItems(rules, shown, share, items).answered
       <==> id in shown && exists i :: 0 <= i < |items| && items[i].observation == id
  {
    if items != [] {
      var front, last := items[..|items| - 1], items[|items| - 1];
      AnsweredAre(rules, shown, share, front, id);
      assert items == front + [last];
      if i :| 0 <= i < |front| && front[i].observation == id { assert items[i].observation == id; }
    }
  }

  /** The last item is the first about its observation exactly if that is shown and not yet answered. */
  lemma LastIsFirst(rules: Rules, shown: set<string>, share: real, items: seq<Item>)
    requires items != []
    ensures var front, last := items[..|items| - 1], items[|items| - 1];
            FirstAbout(shown, items, |items| - 1)
            <==> last.observation in shown && last.observation !in TakeItems(rules, shown, share, front).answered
    ensures forall i: nat :: i < |items| - 1 ==>
            (FirstAbout(shown, items, i) <==> FirstAbout(shown, items[..|items| - 1], i))
  {
    var front, last := items[..|items| - 1], items[|items| - 1];
    AnsweredAre(rules, shown, share, front, last.observation);
    assert forall i :: 0 <= i < |front| ==> front[i] == items[i];
  }

  // -------------------------------------------------------------------- verdicts --

  /** The verdict says what this item says. */
  ghost predicate Says(rules: Rules, share: real, item: Item, v: Verdict) {
    && v.observation == item.observation && v.assessment == item.assessment && IsCut(v.reasoning, item.reasoning, 1200)
    && v.citations == Resolved(rules, item.citations) && v.model == rules.model && v.usd == share
  }

  ghost predicate VerdictOf(rules: Rules, shown: set<string>, share: real, items: seq<Item>, i: nat, v: Verdict) {
    && FirstAbout(shown, items, i) && Usable(items[i]) && Resolved(rules, items[i].citations) != []
    && Says(rules, share, items[i], v)
  }

  /** Exactly these verdicts are kept: of the first item about each shown observation, if it is
      usable and something it cites was found, what it says. */
  lemma {:induction false} VerdictsExactly(rules: Rules, shown: set<string>, share: real, items: seq<Item>, v: Verdict)
    ensures v in TakeItems(rules, shown, share, items).verdicts
       <==> exists i: nat :: VerdictOf(rules, shown, share, items, i, v)
  {
    if items != [] {
      var front, last := items[..|items| - 1], items[|items| - 1];
      VerdictsExactly(rules, shown, share, front, v);
      LastIsFirst(rules, shown, share, items);
      LastVerdict(rules, shown, share, last, TakeItems(rules, shown, share, front), v);
      if i: nat :| VerdictOf(rules, shown, share, front, i, v) {
        assert VerdictOf(rules, shown, share, items, i, v);
      }
      if i: nat :| VerdictOf(rules, shown, share, items, i, v) {
        assert i < |front| ==> VerdictOf(rules, shown, share, front, i, v);
      }
      if VerdictOf(rules, shown, share, items, |items| - 1, v) {
      }
    }
  }

  lemma LastVerdict(rules: Rules, shown: set<string>, share: real, item: Item, k: Kept, v: Verdict)
    ensures v in TakeItem(rules, shown, share, item, k).verdicts
       <==> || v in k.verdicts
            || (item.observation in shown && item.observation !in k.answered && Usable(item)
                && Resolved(rules, item.citations) != [] && Says(rules, share, item, v))
  {
  }

  /** Verdicts stand in the order of the items they are kept of. */
  lemma {:induction false} VerdictsInOrder(rules: Rules, shown: set<string>, share: real, items: seq<Item>,
                                           p: nat, q: nat, i: nat, j: nat)
    requires p < q < |TakeItems(rules, shown, share, items).verdicts|
    requires VerdictOf(rules, shown, share, items, i, TakeItems(rules, shown, share, items).verdicts[p])
    requires VerdictOf(rules, shown, share, items, j, TakeItems(rules, shown, share, items).verdicts[q])
    ensures i < j
  {
    var front := items[..|items| - 1];
    var k, t := TakeItems(rules, shown, share, front), TakeItems(rules, shown, share, items);
    OneVerdictMore(rules, shown, share, items[|items| - 1], k);
    InFront(rules, shown, share, items, t.verdicts[p], i);
    if q < |k.verdicts| {
      InFront(rules, shown, share, items, t.verdicts[q], j);
      VerdictsInOrder(rules, shown, share, front, p, q, i, j);
    } else {
      assert items[j].observation == items[|items| - 1].observation;
      LastIsFirst(rules, shown, share, items);
      AnsweredAre(rules, shown, share, front, items[j].observation);
    }
  }

  /** A further item adds at most one verdict, about itself and at the end. */
  lemma OneVerdictMore(rules: Rules, shown: set<string>, share: real, item: Item, k: Kept)
    ensures var t := TakeItem(rules, shown, share, item, k);
            || t.verdicts == k.verdicts
            || (|t.verdicts| == |k.verdicts| + 1 && t.verdicts[..|k.verdicts|] == k.verdicts
                && t.verdicts[|k.verdicts|].observation == item.observation && item.observation !in k.answered)
  {
  }

  /** A verdict that is kept of the items before the last is not of the last one. */
  lemma InFront(rules: Rules, shown: set<string>, share: real, items: seq<Item>, v: Verdict, i: nat)
    requires items != [] && v in TakeItems(rules, shown, share, items[..|items| - 1]).verdicts
    requires VerdictOf(rules, shown, share, items, i, v)
    ensures i < |items| - 1 && VerdictOf(rules, shown, share, items[..|items| - 1], i, v)
  {
    var front := items[..|items| - 1];
    VerdictsExactly(rules, shown, share, front, v);
    var k: nat :| VerdictOf(rules, shown, share, front, k, v);
    assert front[k] == items[k] && items[i].observation == items[k].observation;
    assert !(k < i) && !(i < k);
    LastIsFirst(rules, shown, share, items);
  }

  // ----------------------------------------------------------------- suggestions --

  /** The confidence that is kept: the nearest one from 0 to 1, and half if there is no number. */
  lemma ConfidenceIsNearest(offered: Option<real>, other: real)
    ensures offered.None? ==> Confidence(offered) == 0.5
    ensures 0.0 <= Confidence(offered) <= 1.0
    ensures offered.Some? && 0.0 <= other <= 1.0 ==>
              (if offered.value <= Confidence(offered) then Confidence(offered) - offered.value
               else offered.value - Confidence(offered))
              <= (if offered.value <= other then other - offered.value else offered.value - other)
  {
  }

  /** The suggestion is the offer of this item. */
  ghost predicate Offers(rules: Rules, item: Item, g: Suggestion) {
    && item.offer.Some? && item.offer.value.summary != ""
    && g.observation == item.observation && IsCut(g.summary, item.offer.value.summary, 300)
    && IsCut(g.rationale, item.offer.value.rationale, 1200) && IsCut(g.sketch, item.offer.value.sketch, 4000)
    && g.confidence == Confidence(item.offer.value.confidence)
    && g.citations == Resolved(rules, item.offer.value.citations) != []
  }

  ghost predicate SuggestionOf(rules: Rules, shown: set<string>, items: seq<Item>, i: nat, g: Suggestion) {
    && FirstAbout(shown, items, i) && Usable(items[i]) && Resolved(rules, items[i].citations) != []
    && Offers(rules, items[i], g)
  }

  /** Exactly these suggestions are kept: the offers that come with a kept verdict and cite something
      that was found. */
  lemma {:induction false} SuggestionsExactly(rules: Rules, shown: set<string>, share: real, items: seq<Item>,
                                              g: Suggestion)
    ensures g in TakeItems(rules, shown, share, items).suggestions
       <==> exists i: nat :: SuggestionOf(rules, shown, items, i, g)
  {
    if items != [] {
      var front, last := items[..|items| - 1], items[|items| - 1];
      SuggestionsExactly(rules, shown, share, front, g);
      LastIsFirst(rules, shown, share, items);
      LastSuggestion(rules, shown, share, last, TakeItems(rules, shown, share, front), g);
      if i: nat :| SuggestionOf(rules, shown, front, i, g) {
        assert SuggestionOf(rules, shown, items, i, g);
      }
      if i: nat :| SuggestionOf(rules, shown, items, i, g) {
        assert i < |front| ==> SuggestionOf(rules, shown, front, i, g);
      }
      if SuggestionOf(rules, shown, items, |items| - 1, g) {
      }
    }
  }

  lemma LastSuggestion(rules: Rules, shown: set<string>, share: real, item: Item, k: Kept, g: Suggestion)
    ensures g in TakeItem(rules, shown, share, item, k).suggestions
       <==> || g in k.suggestions
            || (item.observation in shown && item.observation !in k.answered && Usable(item)
                && Resolved(rules, item.citations) != [] && Offers(rules, item, g))
  {
  }

  // ------------------------------------------------------------------ rejections --

  /** The reason holds of this item. */
  ghost predicate Warranted(rules: Rules, item: Item, why: Why) {
    match why
    case Unusable(assessment) => !Usable(item) && IsCut(assessment, item.assessment, 40)
    case CitedNothing => Usable(item) && item.citations == []
    case Uncheckable(offered) =>
      Usable(item) && offered == |item.citations| > 0 && Resolved(rules, item.citations) == []
    case BareSuggestion =>
      && Usable(item) && Resolved(rules, item.citations) != []
      && item.offer.Some? && item.offer.value.summary != "" && Resolved(rules, item.offer.value.citations) == []
    case _ => false
  }

  ghost predicate RejectionOf(rules: Rules, shown: set<string>, items: seq<Item>, i: nat, r: Rejection) {
    FirstAbout(shown, items, i) && r.observation == items[i].observation && Warranted(rules, items[i], r.why)
  }

  /** Exactly these are discarded while the items are read, each for the reason that holds of it. */
  lemma {:induction false} RejectionsExactly(rules: Rules, shown: set<string>, share: real, items: seq<Item>,
                                             r: Rejection)
    ensures r in TakeItems(rules, shown, share, items).rejected
       <==> exists i: nat :: RejectionOf(rules, shown, items, i, r)
  {
    if items != [] {
      var front, last := items[..|items| - 1], items[|items| - 1];
      RejectionsExactly(rules, shown, share, front, r);
      LastIsFirst(rules, shown, share, items);
      LastRejection(rules, shown, share, last, TakeItems(rules, shown, share, front), r);
      if i: nat :| RejectionOf(rules, shown, front, i, r) {
        assert RejectionOf(rules, shown, items, i, r);
      }
      if i: nat :| RejectionOf(rules, shown, items, i, r) {
        assert i < |front| ==> RejectionOf(rules, shown, front, i, r);
      }
      if RejectionOf(rules, shown, items, |items| - 1, r) {
      }
    }
  }

  lemma LastRejection(rules: Rules, shown: set<string>, share: real, item: Item, k: Kept, r: Rejection)
    ensures r in TakeItem(rules, shown, share, item, k).rejected
       <==> || r in k.rejected
            || (item.observation in shown && item.observation !in k.answered
                && r.observation == item.observation && Warranted(rules, item, r.why))
  {
  }

  /** At the end come exactly the shown observations that no item is about, in ascending order. */
  lemma UnaddressedExactly(rules: Rules, packet: Packet, items: seq<Item>, usd: real) returns (ids: seq<string>)
    ensures KeptOf(rules, packet, Some(items), usd).rejected
         == TakeItems(rules, Shown(packet), Share(rules, usd, |items|), items).rejected + RejectAll(ids, NotAddressed)
    ensures forall id :: id in ids
              <==> id in packet.observations && forall i :: 0 <= i < |items| ==> items[i].observation != id
    ensures forall i, j :: 0 <= i < j < |ids| ==> Precedes(ids[i], ids[j])
  {
    var k := TakeItems(rules, Shown(packet), Share(rules, usd, |items|), items);
    var missing := Unanswered(packet.observations, k.answered);
    ids := SortedIds(missing);
    SortedAscends(missing);
    forall id ensures id in ids
      <==> id in packet.observations && forall i :: 0 <= i < |items| ==> items[i].observation != id {
      AnsweredAre(rules, Shown(packet), Share(rules, usd, |items|), items, id);
      UnansweredAre(packet.observations, k.answered, id);
      HasOnce(missing, id);
    }
  }

  lemma HasOnce(ids: seq<string>, id: string)
    ensures id in SortedIds(ids) <==> id in ids
    ensures multiset(SortedIds(ids))[id] <= 1
  {
    SortedIdsSorts(ids, id);
    TimesIsMultiplicity(SortedIds(ids), id);
    assert id in SortedIds(ids) <==> id in multiset(SortedIds(ids));
  }

  lemma SortedAscends(ids: seq<string>)
    ensures var s := SortedIds(ids); forall i, j :: 0 <= i < j < |s| ==> Precedes(s[i], s[j])
  {
    var s := SortedIds(ids);
    SortedIdsSorts(ids, "");
    forall i, j | 0 <= i < j < |s| ensures Precedes(s[i], s[j]) {
      assert NotAfter(s[i], s[j]);
      PrecedesIsTotal(s[i], s[j]);
      HasOnce(ids, s[i]);
      Twice(s, i, j);
    }
  }

  lemma Twice(s: seq<string>, i: nat, j: nat)
    requires i < j < |s|
    ensures s[i] == s[j] ==> multiset(s)[s[i]] >= 2
  {
    assert s == s[..j] + [s[j]] + s[j + 1..];
    assert s[i] in s[..j];
  }

  // -------------------------------------------------------------------- the run --

  /** What is kept of earlier packets comes first. */
  lemma {:induction false} EarlierPacketsFirst(rules: Rules, packets: seq<Packet>, replies: seq<Reply>, n: nat)
    requires |packets| == |replies| && n <= |packets|
    ensures var early, all := KeptOfAll(rules, packets[..n], replies[..n]), KeptOfAll(rules, packets, replies);
            early.verdicts <= all.verdicts && early.suggestions <= all.suggestions && early.rejected <= all.rejected
    decreases |packets|
  {
    if n == |packets| {
      assert packets[..n] == packets && replies[..n] == replies;
    } else {
      var m := |packets| - 1;
      EarlierPacketsFirst(rules, packets[..m], replies[..m], n);
      assert packets[..m][..n] == packets[..n] && replies[..m][..n] == replies[..n];
    }
  }

  /** The verdict is kept of the answer about packet `n`. */
  ghost predicate KeptFrom(rules: Rules, packets: seq<Packet>, replies: seq<Reply>, n: nat, i: nat, v: Verdict)
    requires |packets| == |replies|
  {
    && n < |packets| && replies[n].Answered? && replies[n].items.Some?
    && VerdictOf(rules, Shown(packets[n]), Share(rules, replies[n].usd, |replies[n].items.value|),
                 replies[n].items.value, i, v)
  }

  /** Exactly these verdicts are in the outcome of a run. */
  lemma {:induction false} RunVerdictsExactly(rules: Rules, packets: seq<Packet>, replies: seq<Reply>, v: Verdict)
    requires |packets| == |replies|
    ensures v in KeptOfAll(rules, packets, replies).verdicts
       <==> exists n: nat, i: nat :: KeptFrom(rules, packets, replies, n, i, v)
  {
    if packets != [] {
      var m := |packets| - 1;
      RunVerdictsExactly(rules, packets[..m], replies[..m], v);
      if n: nat, i: nat :| KeptFrom(rules, packets[..m], replies[..m], n, i, v) {
        assert KeptFrom(rules, packets, replies, n, i, v);
      }
      if replies[m].Answered? && replies[m].items.Some? {
        var items := replies[m].items.value;
        VerdictsExactly(rules, Shown(packets[m]), Share(rules, replies[m].usd, |items|), items, v);
        if i: nat :| VerdictOf(rules, Shown(packets[m]), Share(rules, replies[m].usd, |items|), items, i, v) {
          assert KeptFrom(rules, packets, replies, m, i, v);
        }
      }
      if n: nat, i: nat :| KeptFrom(rules, packets, replies, n, i, v) {
        assert n < m ==> KeptFrom(rules, packets[..m], replies[..m], n, i, v);
      }
    }
  }

  /** Each verdict of an answer bears the same part of what the answer cost, rounded. */
  lemma SharesAreTheCost(rules: Rules, packet: Packet, items: seq<Item>, usd: real)
    ensures var verdicts := KeptOf(rules, packet, Some(items), usd).verdicts;
            items != [] ==> Booked(verdicts) == Product(|verdicts|, rules.round(usd / |items| as real))
  {
    SharesAdd(rules, Shown(packet), Share(rules, usd, |items|), items);
    if items != [] {
      ShareIs(rules, usd, |items|);
    }
  }

  lemma ShareIs(rules: Rules, usd: real, n: nat)
    requires n != 0
    ensures Share(rules, usd, n) == rules.round(usd / n as real)
  {
  }

  ghost predicate SkippedAt(packets: seq<Packet>, replies: seq<Reply>, n: nat, key: string, why: Skip) {
    n < |packets| == |replies| && packets[n].key == key && SkippedFor(replies[n], why)
  }

  /** The packets that were not adjudicated are listed with the reason, and no others. */
  lemma {:induction false} SkippedExactly(packets: seq<Packet>, replies: seq<Reply>, key: string, why: Skip)
    requires |packets| == |replies|
    ensures (key, why) in SkippedOf(packets, replies)
       <==> exists n: nat :: SkippedAt(packets, replies, n, key, why)
  {
    if packets != [] {
      var m := |packets| - 1;
      SkippedExactly(packets[..m], replies[..m], key, why);
      LastSkipped(packets, replies, key, why);
      if n: nat :| SkippedAt(packets[..m], replies[..m], n, key, why) {
        assert SkippedAt(packets, replies, n, key, why);
      }
      if n: nat :| SkippedAt(packets, replies, n, key, why) {
        assert n < m ==> SkippedAt(packets[..m], replies[..m], n, key, why);
      }
    }
  }

  lemma LastSkipped(packets: seq<Packet>, replies: seq<Reply>, key: string, why: Skip)
    requires |packets| == |replies| && packets != []
    ensures var m := |packets| - 1;
            (key, why) in SkippedOf(packets, replies)
            <==> (key, why) in SkippedOf(packets[..m], replies[..m]) || SkippedAt(packets, replies, m, key, why)
  {
  }

  predicate SkippedFor(reply: Reply, why: Skip) {
    match why
    case NoClient(reason) => reply == Unavailable(reason)
    case NotSent(reason) => reply == Refused(reason)
    case Broken(reason) => reply.CallFailed? && IsCut(reason, reply.reason, 200)
  }
}

/**
 Model answers, group by group, and what is kept of them.

 An answer is arbitrary: any list of items about any observations, in any order and any
 number. `resolve` checks a citation against the evidence of the run.
 */
module Adjudication {
  import opened Options
  import opened Products
  import opened Text
  import Sorting

  datatype Citation = Citation(kind: string, ref: string, quote: string)

  /** The model that is asked, how a citation is checked, and the rounding of a share of the cost. */
  datatype Rules = Rules(model: string, resolve: Citation -> Option<Citation>, round: real -> real)

  /** A suggestion as offered; its texts are stripped. A confidence that is not a number is None. */
  datatype Offer = Offer(summary: string, rationale: string, sketch: string, confidence: Option<real>,
                         citations: seq<Citation>)

  /** One object of the answer's list; its reasoning is stripped. */
  datatype Item = Item(observation: string, assessment: string, reasoning: string, citations: seq<Citation>,
                       offer: Option<Offer>)

  /** A group of observations, by id, shown to the model together. */
  datatype Packet = Packet(key: string, observations: seq<string>)

  /** What became of asking about a packet. An answer that does not parse has no items. */
  datatype Reply =
    | Unavailable(reason: string)
    | Refused(reason: string)
    | CallFailed(reason: string)
    | Answered(items: Option<seq<Item>>, usd: real, cached: bool)

  datatype Verdict = Verdict(
    observation: string, assessment: string, reasoning: string, citations: seq<Citation>, model: string, usd: real)

  datatype Suggestion = Suggestion(
    observation: string, summary: string, rationale: string, sketch: string, confidence: real, citations: seq<Citation>)

  datatype Why =
    | NotJson
    | Unusable(assessment: string)
    | Uncheckable(offered: nat)
    | CitedNothing
    | BareSuggestion
    | NotAddressed

  /** Why no answer about a packet was looked at. */
  datatype Skip = NoClient(reason: string) | NotSent(reason: string) | Broken(reason: string)

  datatype Rejection = Rejection(observation: string, why: Why)

  /** What is kept of one answer, and which observations it has spoken about. */
  datatype Kept = Kept(verdicts: seq<Verdict>, suggestions: seq<Suggestion>, rejected: seq<Rejection>,
                       answered: set<string>)

  const NONE := Kept([], [], [], {})

  const ASSESSMENTS := {"consistent_with_repo", "diverges_from_repo", "insufficient_evidence", "probe_false_positive"}

  // ----------------------------------------------------------------- one answer --

  function Shown(packet: Packet): set<string> {
    set o <- packet.observations
  }

  /** The citations that check out. */
  function Resolved(rules: Rules, offered: seq<Citation>): seq<Citation> {
    if offered == [] then []
    else
      var last := rules.resolve(offered[|offered| - 1]);
      Resolved(rules, offered[..|offered| - 1]) + if last.Some? then [last.value] else []
  }

  function Limited(text: string, most: nat): string {
    if |text| <= most then text else text[..most]
  }

  /** Half if it is not a number, and never outside 0 to 1. */
  function Confidence(offered: Option<real>): real {
    if offered.None? then 0.5
    else if offered.value < 0.0 then 0.0
    else if offered.value > 1.0 then 1.0
    else offered.value
  }

  /** What of the answer's cost is put down to each of its items. */
  function Share(rules: Rules, usd: real, items: nat): real {
    rules.round(usd / (if items == 0 then 1 else items) as real)
  }

  function Suggested(id: string, offer: Offer, backing: seq<Citation>): Suggestion {
    Suggestion(id, Limited(offer.summary, 300), Limited(offer.rationale, 1200), Limited(offer.sketch, 4000),
               Confidence(offer.confidence), backing)
  }

  function WithOffer(rules: Rules, item: Item, k: Kept): Kept {
    if item.offer.None? || item.offer.value.summary == "" then k
    else
      var backing := Resolved(rules, item.offer.value.citations);
      if backing == [] then k.(rejected := k.rejected + [Rejection(item.observation, BareSuggestion)])
      else k.(suggestions := k.suggestions + [Suggested(item.observation, item.offer.value, backing)])
  }

  function Judged(rules: Rules, item: Item, kept: seq<Citation>, share: real): Verdict {
    Verdict(item.observation, item.assessment, Limited(item.reasoning, 1200), kept, rules.model, share)
  }

  /** `_take` */
  function TakeItem(rules: Rules, shown: set<string>, share: real, item: Item, k: Kept): Kept {
    if item.observation !in shown || item.observation in k.answered then k
    else
      var t := k.(answered := k.answered + {item.observation});
      var kept := Resolved(rules, item.citations);
      if item.assessment !in ASSESSMENTS || item.reasoning == "" then
        t.(rejected := k.rejected + [Rejection(item.observation, Unusable(Limited(item.assessment, 40)))])
      else if kept == [] then
        t.(rejected := k.rejected + [Rejection(item.observation,
                                               if item.citations == [] then CitedNothing
                                               else Uncheckable(|item.citations|))])
      else
        WithOffer(rules, item,
                  t.(verdicts := k.verdicts + [Judged(rules, item, kept, share)]))
  }

  function TakeItems(rules: Rules, shown: set<string>, share: real, items: seq<Item>): Kept {
    if items == [] then NONE
    else TakeItem(rules, shown, share, items[|items| - 1], TakeItems(rules, shown, share, items[..|items| - 1]))
  }

  /** Every element of a list once. */
  function Deduped(ids: seq<string>): seq<string> {
    if ids == [] then []
    else
      var rest := Deduped(ids[1..]);
      if ids[0] in rest then rest else [ids[0]] + rest
  }

  predicate NotAfter(a: string, b: string) {
    !Precedes(b, a)
  }

  /** `sorted` of a set, given by a list of its elements. */
  function SortedIds(ids: seq<string>): seq<string> {
    Sorting.Sorted(NotAfter, Deduped(ids))
  }

  function Unanswered(observations: seq<string>, answered: set<string>): seq<string> {
    if observations == [] then []
    else Unanswered(observations[..|observations| - 1], answered)
         + if observations[|observations| - 1] in answered then [] else [observations[|observations| - 1]]
  }

  function RejectAll(ids: seq<string>, why: Why): seq<Rejection> {
    seq(|ids|, i requires 0 <= i < |ids| => Rejection(ids[i], why))
  }

  /** Everything kept of the answer about a packet. */
  function KeptOf(rules: Rules, packet: Packet, items: Option<seq<Item>>, usd: real): Kept {
    if items.None? then NONE.(rejected := RejectAll(packet.observations, NotJson))
    else
      var k := TakeItems(rules, Shown(packet), Share(rules, usd, |items.value|), items.value);
      k.(rejected := k.rejected + RejectAll(SortedIds(Unanswered(packet.observations, k.answered)), NotAddressed))
  }

  // ---------------------------------------------------------------- accounting --

  function Verdicts(s: seq<Verdict>, id: string): nat {
    if s == [] then 0 else Verdicts(s[..|s| - 1], id) + if s[|s| - 1].observation == id then 1 else 0
  }

  /** How often an observation is listed as discarded; losing only the suggestion does not count. */
  function Discards(s: seq<Rejection>, id: string): nat {
    if s == [] then 0
    else Discards(s[..|s| - 1], id) + if s[|s| - 1].observation == id && s[|s| - 1].why != BareSuggestion then 1 else 0
  }

  lemma {:induction false} DiscardsAppend(a: seq<Rejection>, b: seq<Rejection>, id: string)
    ensures Discards(a + b, id) == Discards(a, id) + Discards(b, id)
  {
    if b == [] {
      assert a + b == a;
    } else {
      DiscardsAppend(a, b[..|b| - 1], id);
      assert (a + b)[..|a + b| - 1] == a + b[..|b| - 1];
    }
  }

  lemma VerdictsOneMore(s: seq<Verdict>, v: Verdict, id: string)
    ensures Verdicts(s + [v], id) == Verdicts(s, id) + if v.observation == id then 1 else 0
  {
    assert (s + [v])[..|s|] == s;
  }

  lemma DiscardsOneMore(s: seq<Rejection>, r: Rejection, id: string)
    ensures Discards(s + [r], id) == Discards(s, id) + if r.observation == id && r.why != BareSuggestion then 1 else 0
  {
    assert (s + [r])[..|s|] == s;
  }

  /** Adjudicated once and not discarded, or discarded once and not adjudicated. */
  predicate AccountedOnce(k: Kept, id: string) {
    Verdicts(k.verdicts, id) + Discards(k.rejected, id) == 1
  }

  predicate Untouched(k: Kept, id: string) {
    Verdicts(k.verdicts, id) + Discards(k.rejected, id) == 0
  }

  /** Accounted for exactly once if it has been spoken about, and not at all otherwise. */
  predicate Counted(k: Kept, id: string) {
    if id in k.answered then AccountedOnce(k, id) else Untouched(k, id)
  }

  lemma WithOfferKeepsCounts(rules: Rules, item: Item, k: Kept, id: string)
    ensures var t := WithOffer(rules, item, k);
            && t.verdicts == k.verdicts && t.answered == k.answered
               && Discards(t.rejected, id) == Discards(k.rejected, id)
  {
    DiscardsOneMore(k.rejected, Rejection(item.observation, BareSuggestion), id);
  }

  lemma OneMoreCounted(k: Kept, t: Kept, observation: string, id: string)
    requires Counted(k, id) && observation !in k.answered && t.answered == k.answered + {observation}
    requires Verdicts(t.verdicts, id) + Discards(t.rejected, id)
          == Verdicts(k.verdicts, id) + Discards(k.rejected, id) + if observation == id then 1 else 0
    ensures Counted(t, id)
  {
    assert id in t.answered <==> id in k.answered || id == observation;
  }

  /** One more rejection, or one more verdict, for the observation of an item. */
  lemma RejectedAccounts(k: Kept, item: Item, why: Why, id: string)
    requires item.observation !in k.answered && why != BareSuggestion
    requires Counted(k, id)
    ensures var t := k.(answered := k.answered + {item.observation},
                        rejected := k.rejected + [Rejection(item.observation, why)]);
            Counted(t, id)
  {
    var t := k.(answered := k.answered + {item.observation},
                rejected := k.rejected + [Rejection(item.observation, why)]);
    DiscardsOneMore(k.rejected, Rejection(item.observation, why), id);
    OneMoreCounted(k, t, item.observation, id);
  }

  lemma JudgedAccounts(k: Kept, v: Verdict, id: string)
    requires v.observation !in k.answered
    requires Counted(k, id)
    ensures var t := k.(answered := k.answered + {v.observation}, verdicts := k.verdicts + [v]);
            Counted(t, id)
  {
    VerdictsOneMore(k.verdicts, v, id);
    OneMoreCounted(k, k.(answered := k.answered + {v.observation}, verdicts := k.verdicts + [v]), v.observation, id);
  }

  lemma TakeItemAccounts(rules: Rules, shown: set<string>, share: real, item: Item, k: Kept, id: string)
    requires Counted(k, id)
    ensures var t := TakeItem(rules, shown, share, item, k);
            Counted(t, id)
  {
    if item.observation in shown && item.observation !in k.answered {
      var kept := Resolved(rules, item.citations);
      if item.assessment !in ASSESSMENTS || item.reasoning == "" {
        RejectedAccounts(k, item, Unusable(Limited(item.assessment, 40)), id);
      } else if kept == [] {
        RejectedAccounts(k, item, if item.citations == [] then CitedNothing else Uncheckable(|item.citations|), id);
      } else {
        var v := Judged(rules, item, kept, share);
        JudgedAccounts(k, v, id);
        WithOfferKeepsCounts(rules, item,
                             k.(answered := k.answered + {v.observation}, verdicts := k.verdicts + [v]), id);
      }
    }
  }

  lemma {:induction false} TakeItemsAccount(rules: Rules, shown: set<string>, share: real, items: seq<Item>, id: string)
    ensures var k := TakeItems(rules, shown, share, items);
            Counted(k, id) && k.answered <= shown
  {
    if items != [] {
      var last, before := items[|items| - 1], TakeItems(rules, shown, share, items[..|items| - 1]);
      TakeItemsAccount(rules, shown, share, items[..|items| - 1], id);
      TakeItemAccounts(rules, shown, share, last, before, id);
      TakeItemAnswers(rules, shown, share, last, before);
    }
  }

  lemma TakeItemAnswers(rules: Rules, shown: set<string>, share: real, item: Item, k: Kept)
    requires k.answered <= shown
    ensures TakeItem(rules, shown, share, item, k).answered <= shown
  {
  }

  function Times(s: seq<string>, id: string): nat {
    if s == [] then 0 else Times(s[..|s| - 1], id) + if s[|s| - 1] == id then 1 else 0
  }

  lemma {:induction false} DiscardsOfAll(ids: seq<string>, why: Why, id: string)
    requires why != BareSuggestion
    ensures Discards(RejectAll(ids, why), id) == Times(ids, id)
  {
    if ids != [] {
      DiscardsOfAll(ids[..|ids| - 1], why, id);
      assert RejectAll(ids, why)[..|ids| - 1] == RejectAll(ids[..|ids| - 1], why);
    }
  }

  lemma {:induction false} TimesIsMultiplicity(s: seq<string>, id: string)
    ensures Times(s, id) == multiset(s)[id]
  {
    if s != [] {
      TimesIsMultiplicity(s[..|s| - 1], id);
      assert s == s[..|s| - 1] + [s[|s| - 1]];
    }
  }

  lemma {:induction false} DedupedOnce(ids: seq<string>, id: string)
    ensures multiset(Deduped(ids))[id] == if id in ids then 1 else 0
  {
    if ids != [] {
      DedupedOnce(ids[1..], id);
      DedupedOnce(ids[1..], ids[0]);
      assert ids == [ids[0]] + ids[1..];
      assert multiset([ids[0]] + Deduped(ids[1..])) == multiset{ids[0]} + multiset(Deduped(ids[1..]));
      assert ids[0] in Deduped(ids[1..]) <==> ids[0] in multiset(Deduped(ids[1..]));
    }
  }

  /** Sorted, each once. */
  lemma SortedIdsSorts(ids: seq<string>, id: string)
    ensures Sorting.Ordered(NotAfter, SortedIds(ids))
    ensures Times(SortedIds(ids), id) == if id in ids then 1 else 0
  {
    forall a, b, c ensures (NotAfter(a, b) || NotAfter(b, a)) && (NotAfter(a, b) && NotAfter(b, c) ==> NotAfter(a, c)) {
      NotAfterIsAnOrder(a, b, c);
    }
    Sorting.SortedIsOrdered(NotAfter, Deduped(ids));
    Sorting.SortedPermutes(NotAfter, Deduped(ids));
    TimesIsMultiplicity(SortedIds(ids), id);
    DedupedOnce(ids, id);
  }

  lemma NotAfterIsAnOrder(a: string, b: string, c: string)
    ensures NotAfter(a, b) || NotAfter(b, a)
    ensures NotAfter(a, b) && NotAfter(b, c) ==> NotAfter(a, c)
  {
    PrecedesIsTotal(a, b);
    PrecedesIsTotal(b, c);
    PrecedesIsTotal(a, c);
    if Precedes(c, a) && a != b && b != c && NotAfter(a, b) && NotAfter(b, c) {
      PrecedesIsTransitive(c, a, b);
      PrecedesIsTotal(c, b);
    }
  }

  lemma {:induction false} UnansweredAre(observations: seq<string>, answered: set<string>, id: string)
    ensures id in Unanswered(observations, answered) <==> id in observations && id !in answered
  {
    if observations != [] {
      var front, last := observations[..|observations| - 1], observations[|observations| - 1];
      UnansweredAre(front, answered, id);
      assert observations == front + [last];
    }
  }

  /** Whatever the model answers, every observation of an answered group is adjudicated exactly
      once or listed exactly once as discarded, never both; and nothing else is. */
  lemma AnsweredGroupIsAccounted(rules: Rules, packet: Packet, items: seq<Item>, usd: real, id: string)
    ensures var k := KeptOf(rules, packet, Some(items), usd);
            if id in packet.observations then AccountedOnce(k, id) else Untouched(k, id)
  {
    var share := Share(rules, usd, |items|);
    var k := TakeItems(rules, Shown(packet), share, items);
    var missing := Unanswered(packet.observations, k.answered);
    TakeItemsAccount(rules, Shown(packet), share, items, id);
    DiscardsAppend(k.rejected, RejectAll(SortedIds(missing), NotAddressed), id);
    DiscardsOfAll(SortedIds(missing), NotAddressed, id);
    SortedIdsSorts(missing, id);
    UnansweredAre(packet.observations, k.answered, id);
  }

  /** An answer that is not the required JSON discards every observation it was about. */
  lemma UnreadableGroupIsDiscarded(rules: Rules, packet: Packet, usd: real, id: string)
    ensures var k := KeptOf(rules, packet, None, usd);
            k.verdicts == [] && k.suggestions == [] && Discards(k.rejected, id) == Times(packet.observations, id)
  {
    DiscardsOfAll(packet.observations, NotJson, id);
  }

  // ------------------------------------------------------------ nothing unchecked --

  ghost predicate Checked(rules: Rules, citations: seq<Citation>) {
    citations != [] && forall c <- citations :: exists raw :: rules.resolve(raw) == Some(c)
  }

  lemma {:induction false} ResolvedAreChecked(rules: Rules, offered: seq<Citation>)
    ensures forall c <- Resolved(rules, offered) :: exists raw :: rules.resolve(raw) == Some(c)
  {
    if offered != [] {
      ResolvedAreChecked(rules, offered[..|offered| - 1]);
    }
  }

  ghost predicate SoundVerdict(rules: Rules, shown: set<string>, v: Verdict) {
    && v.observation in shown && v.assessment in ASSESSMENTS && 0 < |v.reasoning| <= 1200 && Checked(rules, v.citations)
  }

  ghost predicate SoundSuggestion(rules: Rules, s: Suggestion) {
    && 0 < |s.summary| <= 300 && |s.rationale| <= 1200 && |s.sketch| <= 4000 && 0.0 <= s.confidence <= 1.0
    && Checked(rules, s.citations)
  }

  ghost predicate Sound(rules: Rules, shown: set<string>, k: Kept) {
    && (forall v <- k.verdicts :: SoundVerdict(rules, shown, v))
    && (forall s <- k.suggestions ::
          SoundSuggestion(rules, s) && exists v <- k.verdicts :: v.observation == s.observation)
    && (forall r <- k.rejected :: r.observation in shown)
  }

  lemma TakeItemKeepsSound(rules: Rules, shown: set<string>, share: real, item: Item, k: Kept)
    requires Sound(rules, shown, k)
    ensures Sound(rules, shown, TakeItem(rules, shown, share, item, k))
  {
    var t := TakeItem(rules, shown, share, item, k);
    ResolvedAreChecked(rules, item.citations);
    if item.offer.Some? { ResolvedAreChecked(rules, item.offer.value.citations); }
    forall s <- t.suggestions ensures exists v <- t.verdicts :: v.observation == s.observation {
      if s in k.suggestions {
        var v :| v in k.verdicts && v.observation == s.observation;
        assert v in t.verdicts;
      } else {
        assert t.verdicts[|k.verdicts|].observation == s.observation;
      }
    }
  }

  /** Every claim that is kept has been checked: each verdict is about a shown observation, uses a
      known assessment and cites at least one thing that was found; a suggestion comes with
      a verdict and its own citations, a confidence from 0 to 1 and texts of bounded length. */
  lemma {:induction false} OnlyCheckedClaimsAreKept(rules: Rules, packet: Packet, share: real, items: seq<Item>)
    ensures Sound(rules, Shown(packet), TakeItems(rules, Shown(packet), share, items))
    ensures |TakeItems(rules, Shown(packet), share, items).verdicts| <= |items|
  {
    if items != [] {
      OnlyCheckedClaimsAreKept(rules, packet, share, items[..|items| - 1]);
      TakeItemKeepsSound(rules, Shown(packet), share, items[|items| - 1],
                         TakeItems(rules, Shown(packet), share, items[..|items| - 1]));
    }
  }

  // -------------------------------------------------------------------- the stage --

  function KeptOfAll(rules: Rules, packets: seq<Packet>, replies: seq<Reply>): Kept
    requires |packets| == |replies|
  {
    if packets == [] then NONE
    else
      var n := |packets| - 1;
      WithReply(rules, KeptOfAll(rules, packets[..n], replies[..n]), packets[n], replies[n])
  }

  function WithReply(rules: Rules, before: Kept, packet: Packet, reply: Reply): Kept {
    if reply.Answered? then Joined(before, KeptOf(rules, packet, reply.items, reply.usd)) else before
  }

  function Joined(a: Kept, b: Kept): Kept {
    Kept(a.verdicts + b.verdicts, a.suggestions + b.suggestions, a.rejected + b.rejected, b.answered)
  }

  lemma JoinedAssociates(a: Kept, b: Kept, c: Kept)
    ensures Joined(Joined(a, b).(answered := {}), c) == Joined(a, Joined(b, c))
  {
    assert (a.verdicts + b.verdicts) + c.verdicts == a.verdicts + (b.verdicts + c.verdicts);
    assert (a.suggestions + b.suggestions) + c.suggestions == a.suggestions + (b.suggestions + c.suggestions);
    assert (a.rejected + b.rejected) + c.rejected == a.rejected + (b.rejected + c.rejected);
  }

  /** The groups that were not adjudicated at all. */
  function SkippedOf(packets: seq<Packet>, replies: seq<Reply>): seq<(string, Skip)>
    requires |packets| == |replies|
  {
    if packets == [] then []
    else
      var n := |packets| - 1;
      SkippedOf(packets[..n], replies[..n])
      + if replies[n].Answered? then [] else [(packets[n].key, SkipOf(replies[n]))]
  }

  function SkipOf(reply: Reply): Skip
    requires !reply.Answered?
  {
    match reply
    case Unavailable(reason) => NoClient(reason)
    case Refused(reason) => NotSent(reason)
    case CallFailed(reason) => Broken(Limited(reason, 200))
  }

  function CachedIn(replies: seq<Reply>): nat {
    if replies == [] then 0
    else
      var last := replies[|replies| - 1];
      CachedIn(replies[..|replies| - 1]) + if last.Answered? && last.cached then 1 else 0
  }

  function Spent(replies: seq<Reply>): real {
    if replies == [] then 0.0
    else Spent(replies[..|replies| - 1]) + if replies[|replies| - 1].Answered? then replies[|replies| - 1].usd else 0.0
  }

  // ---------------------------------------------------------- a run is accounted for --

  /** No observation is in two packets. */
  ghost predicate Apart(packets: seq<Packet>) {
    forall i, j :: 0 <= i < j < |packets| ==> forall id <- packets[i].observations :: id !in packets[j].observations
  }

  /** What becomes of an observation that is in this packet alone. */
  predicate Accounted(k: Kept, packet: Packet, reply: Reply, id: string) {
    if !reply.Answered? then Untouched(k, id)
    else if reply.items.Some? then AccountedOnce(k, id)
    else Verdicts(k.verdicts, id) == 0 && Discards(k.rejected, id) == Times(packet.observations, id)
  }

  lemma {:induction false} VerdictsAppend(a: seq<Verdict>, b: seq<Verdict>, id: string)
    ensures Verdicts(a + b, id) == Verdicts(a, id) + Verdicts(b, id)
  {
    if b == [] {
      assert a + b == a;
    } else {
      VerdictsAppend(a, b[..|b| - 1], id);
      assert (a + b)[..|a + b| - 1] == a + b[..|b| - 1];
    }
  }

  lemma {:induction false} TimesIsMembership(s: seq<string>, id: string)
    ensures id !in s ==> Times(s, id) == 0
  {
    TimesIsMultiplicity(s, id);
    assert id in s <==> id in multiset(s);
  }

  /** One more packet changes nothing for an observation it does not hold, and accounts for one it does. */
  lemma ReplyAccounts(rules: Rules, before: Kept, packet: Packet, reply: Reply, id: string)
    ensures var k := WithReply(rules, before, packet, reply);
            && (id !in packet.observations ==>
                  Verdicts(k.verdicts, id) == Verdicts(before.verdicts, id)
                  && Discards(k.rejected, id) == Discards(before.rejected, id))
            && (id in packet.observations && Untouched(before, id) ==> Accounted(k, packet, reply, id))
  {
    if reply.Answered? {
      var kept := KeptOf(rules, packet, reply.items, reply.usd);
      VerdictsAppend(before.verdicts, kept.verdicts, id);
      DiscardsAppend(before.rejected, kept.rejected, id);
      if reply.items.Some? {
        AnsweredGroupIsAccounted(rules, packet, reply.items.value, reply.usd, id);
      } else {
        UnreadableGroupIsDiscarded(rules, packet, reply.usd, id);
        TimesIsMembership(packet.observations, id);
      }
    }
  }

  lemma {:induction false} OthersUntouched(rules: Rules, packets: seq<Packet>, replies: seq<Reply>, id: string)
    requires |packets| == |replies| && forall packet <- packets :: id !in packet.observations
    ensures Untouched(KeptOfAll(rules, packets, replies), id)
  {
    if packets != [] {
      var n := |packets| - 1;
      OthersUntouched(rules, packets[..n], replies[..n], id);
      assert packets[n] in packets;
      ReplyAccounts(rules, KeptOfAll(rules, packets[..n], replies[..n]), packets[n], replies[n], id);
    }
  }

  /** Over a whole run: an observation of an answered packet is adjudicated exactly once or discarded
      exactly once, one of an unreadable answer is discarded, and one of a skipped packet is neither. */
  lemma {:induction false} RunIsAccounted(rules: Rules, packets: seq<Packet>, replies: seq<Reply>, i: nat, id: string)
    requires |packets| == |replies| && Apart(packets) && i < |packets| && id in packets[i].observations
    ensures Accounted(KeptOfAll(rules, packets, replies), packets[i], replies[i], id)
  {
    var n := |packets| - 1;
    var before := KeptOfAll(rules, packets[..n], replies[..n]);
    if i == n {
      forall packet <- packets[..n] ensures id !in packet.observations {
        var j :| 0 <= j < n && packets[j] == packet;
      }
      OthersUntouched(rules, packets[..n], replies[..n], id);
    } else {
      RunIsAccounted(rules, packets[..n], replies[..n], i, id);
    }
    ReplyAccounts(rules, before, packets[n], replies[n], id);
  }

  // ------------------------------------------------------------------- the shares --

  /** What the verdicts say they have cost. */
  function Booked(verdicts: seq<Verdict>): real {
    if verdicts == [] then 0.0 else Booked(verdicts[..|verdicts| - 1]) + verdicts[|verdicts| - 1].usd
  }

  lemma {:induction false} BookedAppend(a: seq<Verdict>, b: seq<Verdict>)
    ensures Booked(a + b) == Booked(a) + Booked(b)
  {
    if b == [] {
      assert a + b == a;
    } else {
      BookedAppend(a, b[..|b| - 1]);
      assert (a + b)[..|a + b| - 1] == a + b[..|b| - 1];
    }
  }

  function Product(n: nat, x: real): real {
    n as real * x
  }

  lemma OneShareMore(rules: Rules, shown: set<string>, share: real, item: Item, k: Kept)
    ensures var t := TakeItem(rules, shown, share, item, k);
            || (t.verdicts == k.verdicts)
            || (|t.verdicts| == |k.verdicts| + 1 && Booked(t.verdicts) == Booked(k.verdicts) + share)
  {
    var t := TakeItem(rules, shown, share, item, k);
    if t.verdicts != k.verdicts {
      assert t.verdicts == k.verdicts + [t.verdicts[|k.verdicts|]];
      assert t.verdicts[..|k.verdicts|] == k.verdicts;
    }
  }

  lemma {:induction false} SharesAdd(rules: Rules, shown: set<string>, share: real, items: seq<Item>)
    ensures var k := TakeItems(rules, shown, share, items);
            |k.verdicts| <= |items| && Booked(k.verdicts) == Product(|k.verdicts|, share)
  {
    if items != [] {
      var k := TakeItems(rules, shown, share, items[..|items| - 1]);
      SharesAdd(rules, shown, share, items[..|items| - 1]);
      OneShareMore(rules, shown, share, items[|items| - 1], k);
      ProductOfSum(|k.verdicts|, 1, share);
    }
  }

  /** Rounding is off by at most half a step. */
  ghost predicate Near(rules: Rules, half: real) {
    0.0 <= half && forall x :: x - half <= rules.round(x) <= x + half
  }

  lemma PartOfCost(n: nat, most: nat, usd: real, share: real, half: real)
    requires n <= most && 0.0 <= usd && 0.0 <= half
    requires share <= usd / (if most == 0 then 1 else most) as real + half
    ensures Product(n, share) <= usd + Product(most, half)
  {
    if most > 0 {
      Undo(usd, most as real);
      SharesOfCost(n as real, most as real, usd / most as real, share, half);
    }
  }

  lemma SharesOfCost(n: real, most: real, part: real, share: real, half: real)
    requires 0.0 <= n <= most && 0.0 <= part && 0.0 <= half && share <= part + half
    ensures n * share <= part * most + most * half
  {
    Scale(share, part + half, n);
    Distribute(part, half, n);
    Scale(n, most, part);
    Scale(n, most, half);
  }

  function Offered(reply: Reply): nat {
    if reply.Answered? && reply.items.Some? then |reply.items.value| else 0
  }

  /** What an answer cost covers what its verdicts are said to have cost, up to rounding. */
  lemma SharesWithinCost(rules: Rules, packet: Packet, reply: Reply, half: real)
    requires reply.Answered? && 0.0 <= reply.usd && Near(rules, half)
    ensures Booked(KeptOf(rules, packet, reply.items, reply.usd).verdicts) <= reply.usd + Product(Offered(reply), half)
  {
    if reply.items.Some? {
      var n := |reply.items.value|;
      var share := Share(rules, reply.usd, n);
      SharesAdd(rules, Shown(packet), share, reply.items.value);
      PartOfCost(|TakeItems(rules, Shown(packet), share, reply.items.value).verdicts|, n, reply.usd, share, half);
    }
  }

  function OfferedIn(replies: seq<Reply>): nat {
    if replies == [] then 0 else OfferedIn(replies[..|replies| - 1]) + Offered(replies[|replies| - 1])
  }

  lemma ProductOfSum(a: nat, b: nat, x: real)
    ensures Product(a + b, x) == Product(a, x) + Product(b, x)
  {
  }

  /** One more packet adds to the booked shares at most what its answer cost, up to rounding. */
  lemma LastShares(rules: Rules, before: Kept, packet: Packet, reply: Reply, half: real)
    requires Near(rules, half) && (reply.Answered? ==> 0.0 <= reply.usd)
    ensures Booked(WithReply(rules, before, packet, reply).verdicts)
         <= Booked(before.verdicts) + (if reply.Answered? then reply.usd else 0.0) + Product(Offered(reply), half)
  {
    if reply.Answered? {
      SharesWithinCost(rules, packet, reply, half);
      BookedAppend(before.verdicts, KeptOf(rules, packet, reply.items, reply.usd).verdicts);
    } else {
      ProductOfSum(0, 0, half);
    }
  }

  /** Over a whole run, the shares written to the verdicts never exceed what was spent, by more
      than the rounding of as many shares as there were items. */
  lemma {:induction false} SharesWithinSpend(rules: Rules, packets: seq<Packet>, replies: seq<Reply>, half: real)
    requires |packets| == |replies| && Near(rules, half)
    requires forall reply <- replies :: reply.Answered? ==> 0.0 <= reply.usd
    ensures Booked(KeptOfAll(rules, packets, replies).verdicts) <= Spent(replies) + Product(OfferedIn(replies), half)
  {
    if packets != [] {
      var n := |packets| - 1;
      SharesWithinSpend(rules, packets[..n], replies[..n], half);
      assert replies[n] in replies;
      LastShares(rules, KeptOfAll(rules, packets[..n], replies[..n]), packets[n], replies[n], half);
      ProductOfSum(OfferedIn(replies[..n]), Offered(replies[n]), half);
    }
  }

  // ------------------------------------------------------------------- the outcome --

  /** What the adjudication of a run comes to. */
  class Outcome {
    var verdicts: seq<Verdict>
    var suggestions: seq<Suggestion>
    var rejected: seq<Rejection>
    var skipped: seq<(string, Skip)>
    var usd: real
    var calls: nat
    var cached: nat

    constructor ()
      ensures Lists() == NONE && skipped == [] && usd == 0.0 && calls == 0 && cached == 0
    {
      verdicts, suggestions, rejected, skipped, usd, calls, cached := [], [], [], [], 0.0, 0, 0;
    }

    ghost function Lists(): Kept
      reads this
    {
      Kept(verdicts, suggestions, rejected, {})
    }

    /** The lists are those of `before`, followed by what was kept since. */
    ghost predicate Follows(before: Kept, kept: Kept)
      reads this
    {
      Lists() == Joined(before, kept).(answered := {})
    }

    /** `_take` */
    method Take(rules: Rules, item: Item, shown: set<string>, share: real, answered: set<string>,
                ghost before: Kept, ghost kept: Kept) returns (answered': set<string>)
      requires Follows(before, kept) && kept.answered == answered
      modifies this`verdicts, this`suggestions, this`rejected
      ensures var k := TakeItem(rules, shown, share, item, kept); Follows(before, k) && k.answered == answered'
    {
      answered' := answered;
      if item.observation !in shown || item.observation in answered {
        return;
      }
      answered' := answered + {item.observation};
      if item.assessment !in ASSESSMENTS || item.reasoning == "" {
        rejected := rejected + [Rejection(item.observation, Unusable(Limited(item.assessment, 40)))];
        return;
      }
      var checked := Resolved(rules, item.citations);
      if checked == [] {
        var why := if item.citations == [] then CitedNothing else Uncheckable(|item.citations|);
        rejected := rejected + [Rejection(item.observation, why)];
        return;
      }
      verdicts := verdicts + [Judged(rules, item, checked, share)];
      if item.offer.None? || item.offer.value.summary == "" {
        return;
      }
      var backing := Resolved(rules, item.offer.value.citations);
      if backing == [] {
        rejected := rejected + [Rejection(item.observation, BareSuggestion)];
        return;
      }
      suggestions := suggestions + [Suggested(item.observation, item.offer.value, backing)];
    }

    method TakeAnswer(rules: Rules, packet: Packet, items: Option<seq<Item>>, cost: real)
      modifies this`verdicts, this`suggestions, this`rejected
      ensures Follows(old(Lists()), KeptOf(rules, packet, items, cost))
    {
      ghost var before := Lists();
      if items.None? {
        rejected := rejected + RejectAll(packet.observations, NotJson);
        return;
      }
      var share := Share(rules, cost, |items.value|);
      var answered: set<string> := {};
      for i := 0 to |items.value|
        invariant Follows(before, TakeItems(rules, Shown(packet), share, items.value[..i]))
        invariant answered == TakeItems(rules, Shown(packet), share, items.value[..i]).answered
      {
        assert items.value[..i + 1][..i] == items.value[..i];
        answered := Take(rules, items.value[i], Shown(packet), share, answered,
                         before, TakeItems(rules, Shown(packet), share, items.value[..i]));
      }
      assert items.value[..|items.value|] == items.value;
      rejected := rejected + RejectAll(SortedIds(Unanswered(packet.observations, answered)), NotAddressed);
    }

    /** What one packet comes to. */
    method TakeReply(rules: Rules, packet: Packet, reply: Reply)
      modifies this
      ensures Lists() == WithReply(rules, old(Lists()), packet, reply).(answered := {})
      ensures skipped == old(skipped) + if reply.Answered? then [] else [(packet.key, SkipOf(reply))]
      ensures calls == old(calls) + if reply.Answered? then 1 else 0
      ensures cached == old(cached) + if reply.Answered? && reply.cached then 1 else 0
      ensures usd == old(usd) + if reply.Answered? then reply.usd else 0.0
    {
      match reply {
        case Answered(items, cost, fromCache) =>
          calls := calls + 1;
          cached := cached + if fromCache then 1 else 0;
          usd := usd + cost;
          TakeAnswer(rules, packet, items, cost);
        case Unavailable(reason) =>
          skipped := skipped + [(packet.key, NoClient(reason))];
        case Refused(reason) =>
          skipped := skipped + [(packet.key, NotSent(reason))];
        case CallFailed(reason) =>
          skipped := skipped + [(packet.key, Broken(Limited(reason, 200)))];
      }
    }

    /** `adjudicate` */
    method Adjudicate(rules: Rules, packets: seq<Packet>, replies: seq<Reply>)
      requires |packets| == |replies|
      modifies this
      ensures Follows(old(Lists()), KeptOfAll(rules, packets, replies))
      ensures skipped == old(skipped) + SkippedOf(packets, replies)
      ensures calls + |skipped| == old(calls + |skipped|) + |packets| && usd == old(usd) + Spent(replies)
      ensures cached == old(cached) + CachedIn(replies)
    {
      ghost var before := Lists();
      for i := 0 to |packets|
        invariant Follows(before, KeptOfAll(rules, packets[..i], replies[..i]))
        invariant skipped == old(skipped) + SkippedOf(packets[..i], replies[..i])
        invariant calls + |skipped| == old(calls + |skipped|) + i && usd == old(usd) + Spent(replies[..i])
        invariant cached == old(cached) + CachedIn(replies[..i])
      {
        OneMorePacket(rules, packets, replies, i);
        FollowsWithReply(rules, before, KeptOfAll(rules, packets[..i], replies[..i]), packets[i], replies[i]);
        TakeReply(rules, packets[i], replies[i]);
      }
      assert packets[..|packets|] == packets && replies[..|replies|] == replies;
    }
  }

  lemma OneMorePacket(rules: Rules, packets: seq<Packet>, replies: seq<Reply>, i: nat)
    requires |packets| == |replies| && i < |packets|
    ensures var before, after := packets[..i], packets[..i + 1];
            && KeptOfAll(rules, after, replies[..i + 1])
               == WithReply(rules, KeptOfAll(rules, before, replies[..i]), packets[i], replies[i])
            && SkippedOf(after, replies[..i + 1])
               == SkippedOf(before, replies[..i])
                  + if replies[i].Answered? then [] else [(packets[i].key, SkipOf(replies[i]))]
    ensures Spent(replies[..i + 1]) == Spent(replies[..i]) + if replies[i].Answered? then replies[i].usd else 0.0
    ensures CachedIn(replies[..i + 1])
         == CachedIn(replies[..i]) + if replies[i].Answered? && replies[i].cached then 1 else 0
  {
    assert packets[..i + 1][..i] == packets[..i] && replies[..i + 1][..i] == replies[..i];
  }

  lemma FollowsWithReply(rules: Rules, before: Kept, kept: Kept, packet: Packet, reply: Reply)
    ensures WithReply(rules, Joined(before, kept).(answered := {}), packet, reply).(answered := {})
         == Joined(before, WithReply(rules, kept, packet, reply)).(answered := {})
  {
    if reply.Answered? {
      JoinedAssociates(before, kept, KeptOf(rules, packet, reply.items, reply.usd));
    }
  }
}

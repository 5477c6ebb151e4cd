/** The engagement score (app/services/lead_scoring.py). */
module LeadScoring {
  import opened Common

  const OPEN_TIERS: seq<(int, int)> := [(25, 40), (15, 34), (10, 30), (5, 26), (3, 20), (2, 14), (1, 8)]
  const RECENCY_TIERS: seq<(int, int)> := [(7, 15), (30, 10), (60, 5), (90, 2)]
  const TIMING_POINTS: seq<(string, int)> := [
    ("immediat", 18), ("today", 18), ("tomorrow", 15), ("0-3", 12), ("within 3", 12), ("this week", 12),
    ("3-6", 8), ("3\U{2013}6", 8), ("6-12", 4), ("6\U{2013}12", 4), ("flexible", 2), ("future", 1), ("research", 1)]
  const PER_CLICK := 12
  const MAX_CLICK_POINTS := 30
  const PER_MATERIAL := 2
  const PER_INTEREST := 4
  const INSPECTION := 18
  const MARKETING_OPT_IN := 5
  const PACK_DELIVERED := 3
  const MAX_SCORE := 100
  const DAY: int := 86_400_000_000

  /** The columns of a lead that the score reads; `timing` is stripped and lower-cased. */
  datatype Signals = Signals(
    opens: nat, openedAt: Option<Instant>, clicked: seq<string>,
    materials: seq<string>, interests: seq<string>, timing: string,
    inspection: bool, optIn: bool, packSent: bool)

  function Min(a: int, b: int): int {
    if a <= b then a else b
  }

  function Max(a: int, b: int): int {
    if a <= b then b else a
  }

  /** The most points any entry that applies is worth, or none. */
  function Best<K>(table: seq<(K, int)>, applies: K -> bool): int {
    if table == [] then 0
    else if applies(table[0].0) then Max(table[0].1, Best(table[1..], applies))
    else Best(table[1..], applies)
  }

  /** Points never rise down a table, and none are negative. */
  predicate Ranked<K>(table: seq<(K, int)>) {
    && (forall i :: 0 <= i < |table| ==> 0 <= table[i].1)
    && (forall i, j :: 0 <= i < j < |table| ==> table[i].1 >= table[j].1)
  }

  lemma {:induction false} BestBounds<K>(table: seq<(K, int)>, applies: K -> bool, top: int)
    requires Ranked(table) && 0 <= top && (forall i :: 0 <= i < |table| ==> table[i].1 <= top)
    ensures 0 <= Best(table, applies) <= top
    ensures (forall i :: 0 <= i < |table| ==> !applies(table[i].0)) ==> Best(table, applies) == 0
  {
    if table != [] {
      BestBounds(table[1..], applies, top);
    }
  }

  /** In a ranked table the first entry that applies is worth the most, so a scan with an
      early return finds the best. */
  lemma {:induction false} FirstIsBest<K>(table: seq<(K, int)>, applies: K -> bool, k: nat)
    requires Ranked(table) && k <= |table|
    requires forall i :: 0 <= i < k ==> !applies(table[i].0)
    requires k < |table| ==> applies(table[k].0)
    ensures Best(table, applies) == if k < |table| then table[k].1 else 0
  {
    if k > 0 {
      FirstIsBest(table[1..], applies, k - 1);
    } else if table != [] {
      BestBounds(table[1..], applies, table[0].1);
    }
  }

  /** What applies more often is worth at least as much. */
  lemma {:induction false} BestMonotone<K(!new)>(table: seq<(K, int)>, fewer: K -> bool, more: K -> bool)
    requires Ranked(table) && forall i :: 0 <= i < |table| && fewer(table[i].0) ==> more(table[i].0)
    ensures Best(table, fewer) <= Best(table, more)
  {
    if table != [] {
      assert forall i :: 0 <= i < |table[1..]| ==> table[1..][i] == table[i + 1];
      BestMonotone(table[1..], fewer, more);
    }
  }

  function OpenPoints(opens: int): int {
    Best(OPEN_TIERS, tier => opens >= tier)
  }

  function RecencyPoints(openedAt: Option<Instant>, now: Instant): int {
    if openedAt.None? then 0 else Best(RECENCY_TIERS, days => now - openedAt.value <= days * DAY)
  }

  function TimingPoints(timing: string): int {
    Best(TIMING_POINTS, token => Contains(timing, token))
  }

  function ClickPoints(clicked: seq<string>): int {
    Min(PER_CLICK * |clicked|, MAX_CLICK_POINTS)
  }

  predicate Contains(s: string, token: string) {
    exists i :: 0 <= i <= |s| && token <= s[i..]
  }

  function Score(s: Signals, now: Instant): int {
    Min(
      OpenPoints(s.opens) + ClickPoints(s.clicked) + RecencyPoints(s.openedAt, now)
      + PER_MATERIAL * |s.materials| + PER_INTEREST * |s.interests| + TimingPoints(s.timing)
      + (if s.inspection then INSPECTION else 0) + (if s.optIn then MARKETING_OPT_IN else 0)
      + (if s.packSent then PACK_DELIVERED else 0),
      MAX_SCORE)
  }

  // The scans as the source writes them

  /** One `for threshold, points in TIERS` loop with its early return. */
  method Scan<K>(table: seq<(K, int)>, applies: K -> bool) returns (points: int)
    requires Ranked(table)
    ensures points == Best(table, applies)
  {
    for i := 0 to |table|
      invariant forall k :: 0 <= k < i ==> !applies(table[k].0)
    {
      if applies(table[i].0) {
        FirstIsBest(table, applies, i);
        return table[i].1;
      }
    }
    FirstIsBest(table, applies, |table|);
    return 0;
  }

  lemma TiersAreRanked()
    ensures Ranked(OPEN_TIERS) && Ranked(RECENCY_TIERS)
  {
  }

  lemma TimingsAreRanked()
    ensures Ranked(TIMING_POINTS)
  {
    var points := [18, 18, 15, 12, 12, 12, 8, 8, 4, 4, 2, 1, 1];
    assert forall i :: 0 <= i < |TIMING_POINTS| ==> TIMING_POINTS[i].1 == points[i];
  }

  method EngagementScore(s: Signals, now: Instant) returns (score: int)
    ensures score == Score(s, now)
  {
    TiersAreRanked();
    TimingsAreRanked();
    hide Best, Ranked;
    score := Scan(OPEN_TIERS, tier => s.opens >= tier);
    score := score + Min(PER_CLICK * |s.clicked|, MAX_CLICK_POINTS);
    if s.openedAt.Some? {
      var recency := Scan(RECENCY_TIERS, days => now - s.openedAt.value <= days * DAY);
      score := score + recency;
    }
    score := score + PER_MATERIAL * |s.materials|;
    score := score + PER_INTEREST * |s.interests|;
    var timing := Scan(TIMING_POINTS, token => Contains(s.timing, token));
    score := score + timing;
    if s.inspection {
      score := score + INSPECTION;
    }
    if s.optIn {
      score := score + MARKETING_OPT_IN;
    }
    if s.packSent {
      score := score + PACK_DELIVERED;
    }
    score := Min(score, MAX_SCORE);
  }

  // Properties

  lemma OpenPointsAre(opens: nat)
    ensures OpenPoints(opens) == if opens >= 25 then 40
                                 else if opens >= 15 then 34
                                 else if opens >= 10 then 30
                                 else if opens >= 5 then 26
                                 else if opens >= 3 then 20
                                 else if opens == 2 then 14
                                 else if opens == 1 then 8
                                 else 0
  {
    TiersAreRanked();
    FirstIsBest(OPEN_TIERS, tier => opens >= tier,
                if opens >= 25 then 0 else if opens >= 15 then 1 else if opens >= 10 then 2
                else if opens >= 5 then 3 else if opens >= 3 then 4 else if opens == 2 then 5
                else if opens == 1 then 6 else 7);
    hide Best, Ranked;
  }

  /** Days since the last open, rounded down, do not count: the exact instant does. */
  lemma RecencyPointsAre(openedAt: Option<Instant>, now: Instant)
    ensures RecencyPoints(openedAt, now) == if openedAt.None? then 0
                                            else var since := now - openedAt.value;
                                                 if since <= 604_800_000_000 then 15
                                                 else if since <= 2_592_000_000_000 then 10
                                                 else if since <= 5_184_000_000_000 then 5
                                                 else if since <= 7_776_000_000_000 then 2
                                                 else 0
  {
    TiersAreRanked();
    if openedAt.Some? {
      var since := now - openedAt.value;
      FirstIsBest(RECENCY_TIERS, days => now - openedAt.value <= days * DAY,
                  if since <= 7 * DAY then 0 else if since <= 30 * DAY then 1 else if since <= 60 * DAY then 2
                  else if since <= 90 * DAY then 3 else 4);
    }
    hide Best, Ranked;
  }

  /** Asked when they would move: the soonest answer that the text mentions. */
  lemma TimingPointsAre(timing: string)
    ensures TimingPoints(timing)
         == if Contains(timing, "immediat") || Contains(timing, "today") then 18
            else if Contains(timing, "tomorrow") then 15
            else if Contains(timing, "0-3") || Contains(timing, "within 3") || Contains(timing, "this week") then 12
            else if Contains(timing, "3-6") || Contains(timing, "3\U{2013}6") then 8
            else if Contains(timing, "6-12") || Contains(timing, "6\U{2013}12") then 4
            else if Contains(timing, "flexible") then 2
            else if Contains(timing, "future") || Contains(timing, "research") then 1
            else 0
  {
    TimingsAreRanked();
    hide Contains;
    var tokens := TIMING_POINTS;
    BestOfThirteen(tokens, token => Contains(timing, token));
    hide Best, Ranked;
  }

  lemma BestOfThirteen<K>(t: seq<(K, int)>, applies: K -> bool)
    requires |t| == 13 && Ranked(t)
    ensures Best(t, applies)
         == if applies(t[0].0) then t[0].1 else if applies(t[1].0) then t[1].1
            else if applies(t[2].0) then t[2].1 else if applies(t[3].0) then t[3].1
            else if applies(t[4].0) then t[4].1 else if applies(t[5].0) then t[5].1
            else if applies(t[6].0) then t[6].1 else if applies(t[7].0) then t[7].1
            else if applies(t[8].0) then t[8].1 else if applies(t[9].0) then t[9].1
            else if applies(t[10].0) then t[10].1 else if applies(t[11].0) then t[11].1
            else if applies(t[12].0) then t[12].1 else 0
  {
    var k :| 0 <= k <= 13 && (forall i :: 0 <= i < k ==> !applies(t[i].0)) && (k < 13 ==> applies(t[k].0));
    FirstIsBest(t, applies, k);
    hide Best, Ranked;
  }

  lemma ContainsIff(s: string, token: string)
    ensures Contains(s, token) <==> exists before, after :: s == before + token + after
  {
    if Contains(s, token) {
      var i :| 0 <= i <= |s| && token <= s[i..];
      assert s == s[..i] + token + s[i + |token|..];
    }
    if before, after :| s == before + token + after {
      assert token <= s[|before|..];
    }
  }

  /** The whole score, in points: at most 40 for opens, 12 for each material clicked up to 30,
      at most 15 for a recent open, 2 for each material asked for, 4 for each interest, at most
      18 for the timing, 18, 5 and 3 for the inspection, the opt-in and the pack, up to 100. */
  lemma ScoreIs(s: Signals, now: Instant)
    ensures var clicks := if |s.clicked| >= 3 then 30 else 12 * |s.clicked|;
            var total := OpenPoints(s.opens) + clicks + RecencyPoints(s.openedAt, now)
                         + 2 * |s.materials| + 4 * |s.interests| + TimingPoints(s.timing)
                         + (if s.inspection then 18 else 0) + (if s.optIn then 5 else 0)
                         + (if s.packSent then 3 else 0);
            Score(s, now) == if total >= 100 then 100 else total
  {
    hide OpenPoints, RecencyPoints, TimingPoints;
  }

  lemma OpensInRange(opens: nat)
    ensures 0 <= OpenPoints(opens) <= 40
  {
    TiersAreRanked();
    hide Best;
    BestBounds(OPEN_TIERS, tier => opens >= tier, 40);
  }

  lemma RecencyInRange(openedAt: Option<Instant>, now: Instant)
    ensures 0 <= RecencyPoints(openedAt, now) <= 15
  {
    TiersAreRanked();
    hide Best;
    if openedAt.Some? {
      BestBounds(RECENCY_TIERS, days => now - openedAt.value <= days * DAY, 15);
    }
  }

  lemma TimingInRange(timing: string)
    ensures 0 <= TimingPoints(timing) <= 18
  {
    TimingsAreRanked();
    hide Best, Contains;
    BestBounds(TIMING_POINTS, token => Contains(timing, token), 18);
  }

  lemma ScoreInRange(s: Signals, now: Instant)
    ensures 0 <= Score(s, now) <= 100
  {
    OpensInRange(s.opens);
    RecencyInRange(s.openedAt, now);
    TimingInRange(s.timing);
    hide OpenPoints, RecencyPoints, TimingPoints;
  }

  /** At least as engaged in every respect, with the same answer on timing. */
  predicate AtLeast(a: Signals, b: Signals) {
    && a.opens <= b.opens && |a.clicked| <= |b.clicked|
    && |a.materials| <= |b.materials| && |a.interests| <= |b.interests|
    && (a.openedAt.Some? ==> b.openedAt.Some? && a.openedAt.value <= b.openedAt.value)
    && a.timing == b.timing
    && (a.inspection ==> b.inspection) && (a.optIn ==> b.optIn) && (a.packSent ==> b.packSent)
  }

  lemma OpensAreMonotone(a: nat, b: nat)
    requires a <= b
    ensures OpenPoints(a) <= OpenPoints(b)
  {
    TiersAreRanked();
    hide Best, Ranked;
    BestMonotone(OPEN_TIERS, tier => a >= tier, tier => b >= tier);
  }

  lemma RecencyIsMonotone(a: Option<Instant>, b: Option<Instant>, earlier: Instant, later: Instant)
    requires earlier <= later && (a.Some? ==> b.Some? && a.value <= b.value)
    ensures RecencyPoints(a, later) <= RecencyPoints(b, earlier)
  {
    TiersAreRanked();
    hide Best;
    if b.Some? {
      BestBounds(RECENCY_TIERS, days => earlier - b.value <= days * DAY, 15);
      if a.Some? {
        BestMonotone(RECENCY_TIERS, days => later - a.value <= days * DAY, days => earlier - b.value <= days * DAY);
      }
    }
  }

  /** At one instant more engagement never scores less. */
  lemma ScoreIsMonotone(a: Signals, b: Signals, now: Instant)
    requires AtLeast(a, b)
    ensures Score(a, now) <= Score(b, now)
  {
    OpensAreMonotone(a.opens, b.opens);
    RecencyIsMonotone(a.openedAt, b.openedAt, now, now);
    hide OpenPoints, RecencyPoints, TimingPoints;
  }

  /** With nothing else changing a score can only fall as time passes. */
  lemma ScoreDecays(s: Signals, now: Instant, later: Instant)
    requires now <= later
    ensures Score(s, later) <= Score(s, now)
  {
    RecencyIsMonotone(s.openedAt, s.openedAt, now, later);
    hide OpenPoints, RecencyPoints, TimingPoints;
  }
}

/**
 The insight cards of app.py: each flagged day is read as a spike above the
 interval or a dip below it, gets a business tip from a keyword table keyed
 on the entity name, and the six newest flagged days are shown.
 */
module Insights {
  import opened Results
  import opened Text
  import opened Series
  import opened Join

  /* ---------------------------------------------------------------------- */
  /* Spike or dip                                                           */
  /* ---------------------------------------------------------------------- */

  datatype Direction = Spike | Dip

  /** How a flagged value relates to the service's interval, and by what factor. */
  datatype Reading = Reading(direction: Direction, magnitude: real)

  /** Above the upper bound is a spike, measured against that bound (against 1 when the
      bound is not positive); anything else is a dip, measured as lower bound over the
      value, or 0 when the value is not positive. */
  function Classify(actual: real, lower: real, upper: real): (r: Reading)
    ensures r.direction == Spike <==> actual > upper
    ensures r.direction == Spike && upper > 0.0 ==> r.magnitude * upper == actual
    ensures r.direction == Spike && upper <= 0.0 ==> r.magnitude == actual
    ensures r.direction == Dip && actual > 0.0 ==> r.magnitude * actual == lower
    ensures r.direction == Dip && actual <= 0.0 ==> r.magnitude == 0.0
  {
    if actual > upper then Reading(Spike, if upper > 0.0 then actual / upper else actual / 1.0)
    else Reading(Dip, if actual > 0.0 then lower / actual else 0.0)
  }

  lemma QuotientAboveOne(a: real, b: real)
    requires 0.0 < b < a
    ensures a / b > 1.0
  {
  }

  lemma QuotientAtMostOne(a: real, b: real)
    requires 0.0 < b && a <= b
    ensures a / b <= 1.0
  {
  }

  /** With positive bounds the factor exceeds 1 exactly when the value lies outside the
      interval: above the upper bound, or positive and below the lower bound. */
  lemma FactorAboveOne(actual: real, lower: real, upper: real)
    requires 0.0 < lower <= upper && actual > 0.0
    ensures Classify(actual, lower, upper).magnitude > 1.0 <==> actual > upper || actual < lower
  {
    if actual > upper {
      QuotientAboveOne(actual, upper);
    } else if actual < lower {
      QuotientAboveOne(lower, actual);
    } else {
      QuotientAtMostOne(lower, actual);
    }
  }

  /** 150 against an upper bound of 100 is a 1.5x spike; 40 against a lower bound of 100
      (and an upper bound of 120) is a 2.5x dip. */
  lemma ClassifyExamples()
    ensures Classify(150.0, 80.0, 100.0) == Reading(Spike, 1.5)
    ensures Classify(40.0, 100.0, 120.0) == Reading(Dip, 2.5)
  {
  }

  /* ---------------------------------------------------------------------- */
  /* Business tips                                                          */
  /* ---------------------------------------------------------------------- */

  /** The keyword pairs of the tip table. */
  datatype Theme = Beauty | Electronics | Clothing

  /** The order in which the pairs are tried. */
  const Themes: seq<Theme> := [Beauty, Electronics, Clothing]

  function Keywords(t: Theme): (string, string)
  {
    match t
    case Beauty => ("beauty", "cosmetic")
    case Electronics => ("electronic", "tech")
    case Clothing => ("clothing", "fashion")
  }

  /** The (lower-cased) category mentions one of the theme's two keywords. */
  predicate Mentions(cat: string, t: Theme)
  {
    Contains(cat, Keywords(t).0) || Contains(cat, Keywords(t).1)
  }

  /** A tip: a fixed text, or the generic growth text, which embeds the magnitude printed
      with one decimal between `GrowthLead` and `GrowthTail`. */
  datatype Tip = Canned(text: string) | Growth(magnitude: real)

  const GrowthLead: string := "\U{1F31F} **Opportunity:** Unusual "
  const GrowthTail: string := "x growth! Analyze marketing channels and consider extending current promotions."
  const DipFallback: string := "\U{1F6A8} **Risk:** Sales dropped significantly below expected levels. Check for data entry errors or operational disruptions."

  /** The fixed text for a theme and direction. */
  function CannedText(t: Theme, d: Direction): string
  {
    match (t, d)
    case (Beauty, Spike) =>
      "\U{1F680} **Opportunity:** Viral trend or influencer mention? Check social mentions and ensure shelf availability."
    case (Beauty, Dip) =>
      "\U{26A0}\U{FE0F} **Risk:** Stock-out or competitor sale? Verify inventory levels and check for regional price wars."
    case (Electronics, Spike) =>
      "\U{1F50B} **Opportunity:** New product launch or tech event? Consider bundling accessories for this high-demand period."
    case (Electronics, Dip) =>
      "\U{1F50C} **Risk:** Supply chain delay? Monitor shipping logs and provide proactive updates to waiting customers."
    case (Clothing, Spike) =>
      "\U{1F455} **Opportunity:** Seasonal shift? Double down on similar styles in your upcoming marketing campaign."
    case (Clothing, Dip) =>
      "\U{1F457} **Risk:** Out-of-season inventory? Consider a flash clearance to move slow-moving stock."
  }

  /** The tip when no theme matches. */
  function Fallback(d: Direction, magnitude: real): Tip
  {
    if d == Spike then Growth(magnitude) else Canned(DipFallback)
  }

  /** Reference lookup: the first theme of `ts` that the category mentions. */
  function FirstMention(cat: string, ts: seq<Theme>): (r: Option<Theme>)
    ensures r.None? <==> forall k :: 0 <= k < |ts| ==> !Mentions(cat, ts[k])
    ensures r.Some? ==> exists k :: 0 <= k < |ts| && ts[k] == r.value && Mentions(cat, ts[k])
                                    && forall j :: 0 <= j < k ==> !Mentions(cat, ts[j])
  {
    if ts == [] then None
    else if Mentions(cat, ts[0]) then Some(ts[0])
    else
      var r := FirstMention(cat, ts[1..]);
      assert r.Some? ==> exists k :: 1 <= k < |ts| && ts[k] == r.value && Mentions(cat, ts[k])
                                     && forall j :: 1 <= j < k ==> !Mentions(cat, ts[j]);
      r
  }

  /** The themes are tried in table order. */
  lemma ThemesInOrder(cat: string)
    ensures FirstMention(cat, Themes) ==
      if Mentions(cat, Beauty) then Some(Beauty)
      else if Mentions(cat, Electronics) then Some(Electronics)
      else if Mentions(cat, Clothing) then Some(Clothing)
      else None
  {
    var t2: seq<Theme> := [Clothing];
    var t1: seq<Theme> := [Electronics, Clothing];
    assert t2[1..] == [];
    assert FirstMention(cat, t2) == if Mentions(cat, Clothing) then Some(Clothing) else None;
    assert t1[0] == Electronics && t1[1..] == t2;
    assert FirstMention(cat, t1) == if Mentions(cat, Electronics) then Some(Electronics) else FirstMention(cat, t2);
    assert Themes[0] == Beauty && Themes[1..] == t1;
  }

  /** The tip table on an already lower-cased category: the themes are tried in table
      order and the first one mentioned decides the text; with none mentioned the fallback
      applies. */
  function TipFor(cat: string, direction: Direction, magnitude: real): (tip: Tip)
    ensures FirstMention(cat, Themes).Some? ==> tip == Canned(CannedText(FirstMention(cat, Themes).value, direction))
    ensures FirstMention(cat, Themes).None? ==> tip == Fallback(direction, magnitude)
  {
    ThemesInOrder(cat);
    if Mentions(cat, Beauty) then Canned(CannedText(Beauty, direction))
    else if Mentions(cat, Electronics) then Canned(CannedText(Electronics, direction))
    else if Mentions(cat, Clothing) then Canned(CannedText(Clothing, direction))
    else Fallback(direction, magnitude)
  }

  /** `get_business_tip`: the category is lower-cased first, so the tip depends on the
      category only through the first theme it mentions, and on the magnitude only through
      the spike fallback. */
  function BusinessTip(category: string, direction: Direction, magnitude: real): (tip: Tip)
    ensures FirstMention(Lower(category), Themes).Some? ==>
      tip == Canned(CannedText(FirstMention(Lower(category), Themes).value, direction))
    ensures FirstMention(Lower(category), Themes).None? ==> tip == Fallback(direction, magnitude)
  {
    TipFor(Lower(category), direction, magnitude)
  }

  /** Upper and lower case in the category make no difference. */
  lemma TipIgnoresCase(category: string, direction: Direction, magnitude: real)
    ensures BusinessTip(Lower(category), direction, magnitude) == BusinessTip(category, direction, magnitude)
  {
    LowerIdempotent(category);
  }

  /** Two magnitudes give different tips only for an unmatched category's spike. */
  lemma OnlyGrowthUsesMagnitude(category: string, direction: Direction, m1: real, m2: real)
    requires BusinessTip(category, direction, m1) != BusinessTip(category, direction, m2)
    ensures direction == Spike
    ensures FirstMention(Lower(category), Themes).None?
  {
  }

  /** The first theme in table order that the lower-cased category mentions decides the
      tip, whatever later themes it also mentions, for either direction and any magnitude. */
  lemma FirstMatchWins(category: string, direction: Direction, magnitude: real, k: nat)
    requires k < |Themes| && Mentions(Lower(category), Themes[k])
    requires forall j :: 0 <= j < k ==> !Mentions(Lower(category), Themes[j])
    ensures BusinessTip(category, direction, magnitude) == Canned(CannedText(Themes[k], direction))
  {
    var cat := Lower(category);
    ThemesInOrder(cat);
    assert Themes[0] == Beauty && Themes[1] == Electronics && Themes[2] == Clothing;
    assert FirstMention(cat, Themes) == Some(Themes[k]) by {
      if k >= 1 {
        assert !Mentions(cat, Themes[0]);
      }
      if k >= 2 {
        assert !Mentions(cat, Themes[1]);
      }
    }
  }

  /** A category naming beauty and tech gets the beauty tip. */
  lemma BeautyBeforeTech(category: string)
    requires category == "Beauty & Tech"
    ensures BusinessTip(category, Dip, 0.0) == Canned(CannedText(Beauty, Dip))
  {
    var cat := Lower(category);
    assert cat[..6] == "beauty";
    assert Mentions(cat, Beauty);
  }

  /* ---------------------------------------------------------------------- */
  /* Choosing the cards                                                     */
  /* ---------------------------------------------------------------------- */

  /** `anomaly == 1`: matched by the service and flagged by it. */
  predicate Flagged(m: Merged)
  {
    m.found.Some? && m.found.value.anomaly
  }

  /** `merged_df[merged_df['anomaly'] == 1]`, in table order. */
  function Anomalous(ms: seq<Merged>): (r: seq<Merged>)
    ensures |r| <= |ms|
    ensures forall m {:trigger m in r} :: m in r ==> m in ms && Flagged(m)
    ensures forall m {:trigger m in ms} :: m in ms && Flagged(m) ==> m in r
  {
    if ms == [] then []
    else
      var rest := Anomalous(ms[1..]);
      assert forall m {:trigger m in ms} :: m in ms ==> m == ms[0] || m in ms[1..];
      (if Flagged(ms[0]) then [ms[0]] else []) + rest
  }

  /** `merged_df['anomaly'].sum()` over a boolean column: the number of true flags. */
  function AnomalyCount(ms: seq<Merged>): (c: nat)
    ensures c <= |ms|
    ensures c == 0 <==> forall i :: 0 <= i < |ms| ==> !Flagged(ms[i])
    ensures c == |ms| <==> forall i :: 0 <= i < |ms| ==> Flagged(ms[i])
  {
    if ms == [] then 0
    else
      assert forall i :: 1 <= i < |ms| ==> ms[i] == ms[1..][i - 1];
      (if Flagged(ms[0]) then 1 else 0) + AnomalyCount(ms[1..])
  }

  /** The headline count and the card list agree: the sum of the flags is the number of
      flagged rows. */
  lemma {:induction false} CountIsAnomalous(ms: seq<Merged>)
    ensures AnomalyCount(ms) == |Anomalous(ms)|
  {
    if ms != [] {
      CountIsAnomalous(ms[1..]);
    }
  }

  /** Descending by day: `sort_values('ds', ascending=False)`. */
  predicate NewestFirstOrder(s: seq<Merged>)
  {
    forall i, j :: 0 <= i < j < |s| ==> s[i].base.day >= s[j].base.day
  }

  function InsertByDay(x: Merged, s: seq<Merged>): (r: seq<Merged>)
    requires NewestFirstOrder(s)
    ensures NewestFirstOrder(r)
    ensures multiset(r) == multiset(s) + multiset{x}
  {
    if s == [] || x.base.day >= s[0].base.day then
      [x] + s
    else
      var rest := InsertByDay(x, s[1..]);
      InsertedNoNewer(x, s, rest);
      NewestFirstCons(s[0], rest);
      assert s == [s[0]] + s[1..];
      [s[0]] + rest
  }

  lemma InsertedNoNewer(x: Merged, s: seq<Merged>, rest: seq<Merged>)
    requires s != [] && x.base.day < s[0].base.day && NewestFirstOrder(s)
    requires multiset(rest) == multiset(s[1..]) + multiset{x}
    ensures forall m :: m in rest ==> m.base.day <= s[0].base.day
  {
    forall m | m in rest ensures m.base.day <= s[0].base.day {
      assert m in multiset(rest);
      if m != x {
        assert m in multiset(s[1..]);
        var j :| 0 <= j < |s[1..]| && s[1..][j] == m;
        assert s[j + 1] == m;
      }
    }
  }

  lemma NewestFirstCons(h: Merged, t: seq<Merged>)
    requires NewestFirstOrder(t)
    requires forall m :: m in t ==> m.base.day <= h.base.day
    ensures NewestFirstOrder([h] + t)
  {
  }

  /** The flagged rows, newest first. Rows of equal day may come in any order. */
  function NewestFirst(s: seq<Merged>): (r: seq<Merged>)
    ensures NewestFirstOrder(r)
    ensures multiset(r) == multiset(s)
  {
    if s == [] then []
    else
      assert s == [s[0]] + s[1..];
      InsertByDay(s[0], NewestFirst(s[1..]))
  }

  /** At most this many cards are shown. */
  const MaxCards: nat := 6

  /** One rendered card: the day, the entity, its value, the reading and the tip. */
  datatype Insight = Insight(day: int, id: string, actual: real, reading: Reading, tip: Tip)

  /** The card for a flagged row, read against the interval the service returned for it. */
  function Describe(m: Merged): (c: Insight)
    requires m.found.Some?
    ensures c.day == m.base.day && c.id == m.base.id && c.actual == m.base.y
    ensures c.reading == Classify(m.base.y, m.found.value.lower, m.found.value.upper)
    ensures c.reading.direction == Spike <==> m.base.y > m.found.value.upper
    ensures c.tip == BusinessTip(m.base.id, c.reading.direction, c.reading.magnitude)
  {
    var r := Classify(m.base.y, m.found.value.lower, m.found.value.upper);
    Insight(m.base.day, m.base.id, m.base.y, r, BusinessTip(m.base.id, r.direction, r.magnitude))
  }

  /** The insight section: a success note when nothing is flagged; otherwise the cards for
      the newest flagged rows, the total, and whether the "top 6 of N" notice appears. */
  datatype Panel =
    | AllClear
    | Cards(shown: seq<Merged>, cards: seq<Insight>, total: nat, notice: bool)

  function Min(a: nat, b: nat): nat
  {
    if a <= b then a else b
  }

  /** `shown` is a newest-first selection from `flagged`: whatever of `flagged` it leaves
      out is no newer than anything it keeps. */
  predicate NewestSelection(shown: seq<Merged>, flagged: seq<Merged>)
  {
    && NewestFirstOrder(shown)
    && multiset(shown) <= multiset(flagged)
    && forall x, i :: x in multiset(flagged) - multiset(shown) && 0 <= i < |shown| ==>
         x.base.day <= shown[i].base.day
  }

  function InsightPanel(merged: seq<Merged>): (p: Panel)
    ensures p.AllClear? <==> forall m :: m in merged ==> !Flagged(m)
    ensures p.Cards? ==> p.total == |Anomalous(merged)| && (p.notice <==> p.total > MaxCards)
    ensures p.Cards? ==> |p.shown| == |p.cards| == Min(p.total, MaxCards) && |p.shown| > 0
    ensures p.Cards? ==> forall i :: 0 <= i < |p.shown| ==>
      Flagged(p.shown[i]) && p.shown[i] in merged && p.cards[i] == Describe(p.shown[i])
    ensures p.Cards? ==> NewestSelection(p.shown, Anomalous(merged))
  {
    CountIsAnomalous(merged);
    if AnomalyCount(merged) == 0 then AllClear
    else
      var flagged := Anomalous(merged);
      var n := Min(|flagged|, MaxCards);
      var shown := Newest(flagged, n);
      ShownFlagged(merged, flagged, shown);
      Cards(shown, DescribeAll(shown), |flagged|, |flagged| > MaxCards)
  }

  lemma ShownFlagged(merged: seq<Merged>, flagged: seq<Merged>, shown: seq<Merged>)
    requires flagged == Anomalous(merged)
    requires forall i :: 0 <= i < |shown| ==> shown[i] in flagged
    ensures forall i :: 0 <= i < |shown| ==> Flagged(shown[i]) && shown[i] in merged
  {
  }

  /** One card per row, in order. */
  function DescribeAll(shown: seq<Merged>): (cards: seq<Insight>)
    requires forall i :: 0 <= i < |shown| ==> shown[i].found.Some?
    ensures |cards| == |shown|
    ensures forall i :: 0 <= i < |shown| ==> cards[i] == Describe(shown[i])
  {
    seq(|shown|, i requires 0 <= i < |shown| => Describe(shown[i]))
  }

  /** `head(n)` of the newest-first ranking of `flagged`. */
  function Newest(flagged: seq<Merged>, n: nat): (shown: seq<Merged>)
    requires n <= |flagged|
    ensures |shown| == n
    ensures forall i :: 0 <= i < n ==> shown[i] in flagged
    ensures NewestSelection(shown, flagged)
  {
    var ranked := NewestFirst(flagged);
    RankedPrefix(ranked, flagged, n);
    ranked[..n]
  }

  /** The prefix of a newest-first ranking of `flagged` holds the newest rows: whatever is
      left out is no newer than anything kept. */
  lemma RankedPrefix(ranked: seq<Merged>, flagged: seq<Merged>, n: nat)
    requires NewestFirstOrder(ranked) && multiset(ranked) == multiset(flagged)
    requires n <= |flagged|
    ensures n <= |ranked|
    ensures forall i :: 0 <= i < n ==> ranked[i] in flagged
    ensures NewestSelection(ranked[..n], flagged)
  {
    assert |multiset(ranked)| == |multiset(flagged)|;
    var shown := ranked[..n];
    PrefixMembers(ranked, flagged, n);
    SplitMultiset(ranked, n);
    RestNoNewer(ranked, n);
  }

  lemma PrefixMembers(ranked: seq<Merged>, flagged: seq<Merged>, n: nat)
    requires multiset(ranked) == multiset(flagged) && n <= |ranked|
    ensures forall i :: 0 <= i < n ==> ranked[i] in flagged
  {
    forall i | 0 <= i < n ensures ranked[i] in flagged {
      assert ranked[i] in multiset(ranked);
    }
  }

  lemma SplitMultiset(ranked: seq<Merged>, n: nat)
    requires n <= |ranked|
    ensures multiset(ranked[..n]) <= multiset(ranked)
    ensures multiset(ranked) - multiset(ranked[..n]) == multiset(ranked[n..])
  {
    assert ranked == ranked[..n] + ranked[n..];
  }

  lemma RestNoNewer(ranked: seq<Merged>, n: nat)
    requires NewestFirstOrder(ranked) && n <= |ranked|
    ensures forall x, i :: x in multiset(ranked[n..]) && 0 <= i < n ==> x.base.day <= ranked[..n][i].base.day
  {
  }
}

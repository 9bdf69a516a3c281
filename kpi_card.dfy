/** The KPI card: its colour classes, the sub-value split on " - " into a figure and a
    status coloured by keyword, and the signed trend badge. */
module KpiCard {
  import opened Wrappers
  import opened Text
  import Dashboard

  /** The card's `color` prop; `Default` is the "default" key. */
  datatype CardColor = Primary | Success | Warning | Danger | Default

  /** The colour map: every key has its class. */
  function ColorClass(c: CardColor): string {
    match c
    case Primary => "text-primary bg-primary/10"
    case Success => "text-[hsl(var(--success))] bg-[hsl(var(--success))]/10"
    case Warning => "text-[hsl(var(--warning))] bg-[hsl(var(--warning))]/10"
    case Danger => "text-destructive bg-destructive/10"
    case Default => "text-muted-foreground bg-muted"
  }

  /** An omitted `color` is "default". */
  function ColorOf(color: Option<CardColor>): (c: CardColor)
    ensures color.None? ==> c == Default
    ensures color.Some? ==> c == color.value
  {
    color.GetOr(Default)
  }

  /** The five colours are told apart by their classes. */
  lemma ColorClassesDistinct(c: CardColor, d: CardColor)
    requires ColorClass(c) == ColorClass(d)
    ensures c == d
  {
  }

  // --- The sub-value ---

  const Sep: string := " - "

  /** The status colours, in the order the card tries them. */
  datatype Tone = SuccessTone | WarningTone | DangerTone | Muted {
    function Class(): string {
      match this
      case SuccessTone => "text-[hsl(var(--success))]"
      case WarningTone => "text-[hsl(var(--warning))]"
      case DangerTone => "text-destructive"
      case Muted => "text-muted-foreground"
    }
  }

  /** The first keyword found, in priority order On Track, At Risk, Critical / Behind Schedule,
      decides the colour; none of them gives the muted colour. */
  function StatusTone(status: string): (t: Tone)
    ensures t == SuccessTone <==> Includes(status, "On Track")
    ensures t == WarningTone <==> !Includes(status, "On Track") && Includes(status, "At Risk")
    ensures t == DangerTone <==> (!Includes(status, "On Track") && !Includes(status, "At Risk") &&
      (Includes(status, "Critical") || Includes(status, "Behind Schedule")))
    ensures t == Muted <==> (!Includes(status, "On Track") && !Includes(status, "At Risk") &&
      !Includes(status, "Critical") && !Includes(status, "Behind Schedule"))
  {
    if Includes(status, "On Track") then SuccessTone
    else if Includes(status, "At Risk") then WarningTone
    else if Includes(status, "Critical") || Includes(status, "Behind Schedule") then DangerTone
    else Muted
  }

  /** `renderSubValue`'s output: the text unchanged, or a figure and a coloured status. */
  datatype SubValue = Plain(text: string) | Styled(percent: string, status: string, tone: Tone)

  /** Fewer than two parts leaves the text alone; otherwise only the first two parts are shown. */
  function RenderSubValue(text: string): (v: SubValue)
    ensures v.Plain? <==> !Includes(text, Sep)
    ensures v.Plain? ==> v.text == text
    ensures v.Styled? ==> v.percent == text[..IndexOf(text, Sep).value]
    ensures v.Styled? ==> var rest := text[IndexOf(text, Sep).value + |Sep|..];
      v.status == if Includes(rest, Sep) then rest[..IndexOf(rest, Sep).value] else rest
    ensures v.Styled? ==> v.tone == StatusTone(v.status)
  {
    var parts := Split(text, Sep);
    SplitHead(text, Sep);
    SplitSecond(text, Sep);
    if |parts| < 2 then Plain(text) else Styled(parts[0], parts[1], StatusTone(parts[1]))
  }

  /** With exactly one separator, the two spans show the whole text again. */
  lemma RenderShowsText(text: string)
    requires |Split(text, Sep)| == 2
    ensures var v := RenderSubValue(text); v.Styled? && v.percent + Sep + v.status == text
  {
    var parts := Split(text, Sep);
    JoinSplit(text, Sep);
    assert Join(parts, Sep) == parts[0] + Sep + Join(parts[1..], Sep);
  }

  /** No '-' after the first character, as in a formatted number such as "-12.5". */
  predicate NoInnerDash(a: string) {
    forall i :: 0 < i < |a| ==> a[i] != '-'
  }

  /** A separator needs a '-' after its first character, so in `a + Sep + t` the first
      occurrence is the one placed after `a`. */
  lemma NoEarlySep(a: string, t: string)
    requires NoInnerDash(a)
    ensures forall j :: 0 <= j < |a| ==> !OccursAt(a + Sep + t, Sep, j)
  {
    var s := a + Sep + t;
    forall j | 0 <= j < |a|
      ensures !OccursAt(s, Sep, j)
    {
      assert s[j + 1] == if j + 1 < |a| then a[j + 1] else Sep[0];
    }
  }

  /** `a - b` with no '-' in `b` splits into exactly `a` and `b`. */
  lemma SplitPair(a: string, b: string)
    requires NoInnerDash(a) && '-' !in b
    ensures Split(a + Sep + b, Sep) == [a, b]
  {
    assert Split(a + Sep + b, Sep) == [a] + Split(b, Sep) by {
      NoEarlySep(a, b);
      SplitAt(a, b, Sep);
    }
    NotIncludesByChar(b, Sep, 1);
  }

  /** `a - b - c` with no '-' in `b` starts with the parts `a` and `b`, whatever `c` is. */
  lemma SplitTriple(a: string, b: string, c: string)
    requires NoInnerDash(a) && '-' !in b
    ensures Split(a + Sep + b + Sep + c, Sep) == [a, b] + Split(c, Sep)
  {
    var t := b + Sep + c;
    assert Split(a + Sep + t, Sep) == [a] + Split(t, Sep) by {
      NoEarlySep(a, t);
      SplitAt(a, t, Sep);
    }
    assert Split(t, Sep) == [b] + Split(c, Sep) by {
      assert NoInnerDash(b);
      NoEarlySep(b, c);
      SplitAt(b, c, Sep);
    }
    assert a + Sep + b + Sep + c == a + Sep + t;
  }

  /** Segments after the second are ignored: `a - b - c` renders as `a - b` does. */
  lemma FurtherSegmentsIgnored(a: string, b: string, c: string)
    requires NoInnerDash(a) && '-' !in b
    ensures RenderSubValue(a + Sep + b + Sep + c) == RenderSubValue(a + Sep + b) == Styled(a, b, StatusTone(b))
  {
    SplitTriple(a, b, c);
    SplitPair(a, b);
  }

  // --- The sub-values the dashboard passes ---

  /** The weekly pacing in parentheses, as the Ship OK card appends it. */
  function Pacing(weeklyOnTrack: bool): string {
    " (" + Dashboard.WeeklyStatus(weeklyOnTrack) + ")"
  }

  /** The status part of the Ship OK card: the month's tier and the weekly pacing. */
  function ShipOkStatus(tier: Dashboard.Tier, weeklyOnTrack: bool): string {
    tier.Label() + Pacing(weeklyOnTrack)
  }

  /** Any status naming "On Track" first is green, whatever follows. */
  lemma OnTrackFirstTone(x: string)
    ensures StatusTone("On Track" + x) == SuccessTone
  {
    IncludesAt("On Track" + x, "On Track", 0);
  }

  /** Weekly pacing "(On Track)" makes any status green, whatever precedes it. */
  lemma PacedOnTrackTone(name: string)
    ensures StatusTone(name + Pacing(true)) == SuccessTone
  {
    assert Pacing(true) == " (On Track)";
    IncludesAt(name + Pacing(true), "On Track", |name| + 2);
  }

  /** "At Risk" first, with no "On Track" after it, is amber. */
  lemma AtRiskFirstTone(x: string)
    requires 'O' !in x
    ensures StatusTone("At Risk" + x) == WarningTone
  {
    NotIncludesByChar("At Risk" + x, "On Track", 0);
    IncludesAt("At Risk" + x, "At Risk", 0);
  }

  /** "Critical" first, with neither "On Track" nor "At Risk" after it, is red. */
  lemma CriticalFirstTone(x: string)
    requires 'O' !in x && 'A' !in x
    ensures StatusTone("Critical" + x) == DangerTone
  {
    NotIncludesByChar("Critical" + x, "On Track", 0);
    NotIncludesByChar("Critical" + x, "At Risk", 0);
    IncludesAt("Critical" + x, "Critical", 0);
  }

  /** Behind schedule, the status part takes the month tier's colour. */
  lemma BehindScheduleTone(tier: Dashboard.Tier)
    ensures StatusTone(ShipOkStatus(tier, false)) ==
      match tier
      case OnTrack => SuccessTone
      case AtRisk => WarningTone
      case Critical => DangerTone
  {
    var x := Pacing(false);
    assert 'O' !in x && 'A' !in x;
    match tier
    case OnTrack => OnTrackFirstTone(x);
    case AtRisk => AtRiskFirstTone(x);
    case Critical => CriticalFirstTone(x);
  }

  /** The status part is green when either the month or the week is on track, so a
      Critical month paced on track is shown as a success. */
  lemma ShipOkStatusTone(tier: Dashboard.Tier, weeklyOnTrack: bool)
    ensures StatusTone(ShipOkStatus(tier, weeklyOnTrack)) ==
      if tier == Dashboard.OnTrack || weeklyOnTrack then SuccessTone
      else if tier == Dashboard.AtRisk then WarningTone
      else DangerTone
  {
    if weeklyOnTrack {
      PacedOnTrackTone(tier.Label());
    } else {
      BehindScheduleTone(tier);
    }
  }

  /** The literal case: "Critical (On Track)" is shown in the success colour. */
  lemma CriticalOnTrackIsSuccess()
    ensures StatusTone("Critical (On Track)") == SuccessTone
  {
    var status := "Critical (On Track)";
    assert status[10..18] == "On Track";
    IncludesAt(status, "On Track", 10);
  }

  /** A status with none of the keywords is muted. */
  lemma NoKeywordIsMuted(status: string)
    requires 'O' !in status && 'A' !in status && 'C' !in status && 'B' !in status
    ensures StatusTone(status) == Muted
  {
    NotIncludesByChar(status, "On Track", 0);
    NotIncludesByChar(status, "At Risk", 0);
    NotIncludesByChar(status, "Critical", 0);
    NotIncludesByChar(status, "Behind Schedule", 0);
  }

  lemma ShipOkStatusHasNoDash(tier: Dashboard.Tier, weeklyOnTrack: bool)
    ensures '-' !in ShipOkStatus(tier, weeklyOnTrack)
  {
    assert '-' !in tier.Label();
    assert '-' !in Pacing(weeklyOnTrack);
  }

  /** The Ship OK card's full sub-value for a formatted progress `pct`. */
  function ShipOkSubValue(pct: string, tier: Dashboard.Tier, weeklyOnTrack: bool): string {
    pct + "% of Target" + Sep + ShipOkStatus(tier, weeklyOnTrack)
  }

  lemma ShipOkCardRender(pct: string, tier: Dashboard.Tier, weeklyOnTrack: bool)
    requires NoInnerDash(pct)
    ensures RenderSubValue(ShipOkSubValue(pct, tier, weeklyOnTrack)) ==
      Styled(pct + "% of Target", ShipOkStatus(tier, weeklyOnTrack),
             if tier == Dashboard.OnTrack || weeklyOnTrack then SuccessTone
             else if tier == Dashboard.AtRisk then WarningTone
             else DangerTone)
  {
    var a := pct + "% of Target";
    AppendNoDash(pct, "% of Target");
    ShipOkStatusTone(tier, weeklyOnTrack);
    ShipOkStatusHasNoDash(tier, weeklyOnTrack);
    FurtherSegmentsIgnored(a, ShipOkStatus(tier, weeklyOnTrack), "");
  }

  /** Appending text with no '-' keeps a figure free of inner dashes. */
  lemma AppendNoDash(pct: string, suffix: string)
    requires NoInnerDash(pct) && '-' !in suffix
    ensures NoInnerDash(pct + suffix)
  {
    var a := pct + suffix;
    forall i | 0 < i < |a|
      ensures a[i] != '-'
    {
      if i >= |pct| {
        assert a[i] == suffix[i - |pct|];
      }
    }
  }

  /** The YTD card's sub-value for a formatted progress `pct`. */
  function YtdSubValue(pct: string, tier: Dashboard.Tier): string {
    pct + "% of annual target" + Sep + tier.Label()
  }

  /** The YTD card shows the formatted figure and the tier label in the tier's own colour. */
  lemma YtdCardRender(pct: string, tier: Dashboard.Tier)
    requires NoInnerDash(pct)
    ensures var v := RenderSubValue(YtdSubValue(pct, tier));
      v.Styled? && v.percent == pct + "% of annual target" && v.status == tier.Label() &&
      v.tone.Class() == tier.Color()
  {
    AppendNoDash(pct, "% of annual target");
    YtdStatusTone(tier);
    SplitPair(pct + "% of annual target", tier.Label());
  }

  /** The YTD card's status part is the tier label alone, coloured as the tier's own colour. */
  lemma YtdStatusTone(tier: Dashboard.Tier)
    ensures StatusTone(tier.Label()).Class() == tier.Color()
    ensures '-' !in tier.Label()
  {
    match tier
    case OnTrack =>
      OnTrackFirstTone("");
      assert "On Track" + "" == "On Track";
    case AtRisk =>
      AtRiskFirstTone("");
      assert "At Risk" + "" == "At Risk";
    case Critical =>
      CriticalFirstTone("");
      assert "Critical" + "" == "Critical";
  }

  // --- The trend badge ---

  /** The badge text: "+" before a positive trend, nothing before a negative one. */
  function TrendText(value: string, isPositive: bool): (t: string)
    ensures |t| == |value| + 1 + (if isPositive then 1 else 0)
  {
    (if isPositive then "+" else "") + value + "%"
  }

  /** For a number's text (never starting with '+'), the badge starts with '+' exactly when
      the trend is positive, and dropping that sign gives the number and '%'. */
  lemma TrendSignIff(value: string, isPositive: bool)
    requires |value| == 0 || value[0] != '+'
    ensures TrendText(value, isPositive)[0] == '+' <==> isPositive
    ensures TrendText(value, isPositive)[(if isPositive then 1 else 0)..] == value + "%"
  {
    if !isPositive && |value| == 0 {
      assert TrendText(value, isPositive) == "%";
    }
  }

  /** The trend badge uses the Success card's classes when positive and the Danger card's otherwise. */
  function TrendClass(isPositive: bool): (cls: string)
    ensures isPositive <==> cls == ColorClass(CardColor.Success)
    ensures !isPositive <==> cls == ColorClass(CardColor.Danger)
  {
    if isPositive then "text-[hsl(var(--success))] bg-[hsl(var(--success))]/10"
    else "text-destructive bg-destructive/10"
  }
}
